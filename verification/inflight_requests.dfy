/** Requests sent over the socket and not answered yet (lib/socket/inflight-requests.js). */
module InflightRequests {
  import opened Collections

  datatype MessageType =
    | STATE_SYNC | REQUESTS | ERROR | AUTH_ERROR | ACTIVITY_UPDATE_RESPONSE | PONG | UPDATES | MESSAGES | API_RESPONSE

  /** What the requests see of a server message: its type, and the client message it answers, if any. */
  datatype ServerMessage = ServerMessage(mtype: MessageType, responseTo: Option<int>)

  datatype Reason = ServerError | SocketOffline | SocketTimeout | SocketClosed

  /** The outcome of the race between the response and the two timers. */
  datatype Result = Pending | Resolved(message: ServerMessage) | Rejected(reason: Reason)

  /** The timers of `timeout`: before the visual timeout, between the two, and after the last. */
  datatype Timer = BeforeVisual | BeforeSocket | Over

  /** One call of `fetchResponse`: its inflightRequest, its requestResult and its race. */
  datatype Request = Request(messageID: int, expected: MessageType, result: Result, concluded: bool, lateResponse: bool, timer: Timer)

  /** `data` holds requests by identity: their positions in the list of all calls made so far. */
  datatype State = State(data: seq<nat>, requests: seq<Request>)

  /** Calls to the callbacks the object was constructed with. */
  datatype Effect = SetLateResponse(messageID: int, isLate: bool) | TimedOut

  // ----- specification of each operation -----

  predicate ValidResponseType(t: MessageType) {
    t.STATE_SYNC? || t.REQUESTS? || t.ACTIVITY_UPDATE_RESPONSE? || t.PONG? || t.API_RESPONSE?
  }

  /** Settling a promise that is settled already has no effect. */
  function Settle(r: Request, result: Result): Request {
    if r.result.Pending? then r.(result := result) else r
  }

  function Fetched(s: State, messageID: int, expected: MessageType): State {
    State(s.data + [|s.requests|], s.requests + [Request(messageID, expected, Pending, false, false, BeforeVisual)])
  }

  function Cleared(data: seq<nat>, h: nat): seq<nat> {
    Difference(data, [h])
  }

  /** What a message does to a request it answers. */
  function Answer(m: ServerMessage, expected: MessageType): Result {
    if m.mtype.ERROR? then Rejected(ServerError)
    else if m.mtype.AUTH_ERROR? then Rejected(SocketOffline)
    else if m.mtype == expected && ValidResponseType(expected) then Resolved(m)
    else Pending
  }

  function AnsweredBy(r: Request, m: ServerMessage): Request {
    if m.responseTo == Some(r.messageID) then Settle(r, Answer(m, r.expected)) else r
  }

  ghost predicate Held(s: State) {
    forall h :: h in s.data ==> h < |s.requests|
  }

  /** Every request in `data` is answered; the others are left alone. */
  function Answered(s: State, m: ServerMessage): State {
    s.(requests := seq(|s.requests|, h requires 0 <= h < |s.requests| =>
      if h in s.data then AnsweredBy(s.requests[h], m) else s.requests[h]))
  }

  function AllRejected(s: State, reason: Reason): State {
    State([], seq(|s.requests|, h requires 0 <= h < |s.requests| =>
      if h in s.data then Settle(s.requests[h], Rejected(reason)) else s.requests[h]))
  }

  /** The part of `fetchResponse` after the await, for a request whose race is over. */
  function Concluded(s: State, h: nat): (State, seq<Effect>)
    requires h < |s.requests|
  {
    var r := s.requests[h];
    var late := if r.lateResponse then [SetLateResponse(r.messageID, false)] else [];
    var cleared := State(Cleared(s.data, h), s.requests[h := r.(concluded := true)]);
    if r.result == Rejected(SocketTimeout) then (AllRejected(cleared, SocketClosed), [TimedOut]) else (cleared, late)
  }

  function VisualTimerFired(s: State, h: nat): (State, seq<Effect>)
    requires h < |s.requests|
  {
    var r := s.requests[h];
    if r.concluded then (s.(requests := s.requests[h := r.(timer := Over)]), [])
    else (s.(requests := s.requests[h := r.(lateResponse := true, timer := BeforeSocket)]), [SetLateResponse(r.messageID, true)])
  }

  function SocketTimerFired(s: State, h: nat): State
    requires h < |s.requests|
  {
    s.(requests := s.requests[h := Settle(s.requests[h].(timer := Over), Rejected(SocketTimeout))])
  }

  predicate AllResolvedExcept(s: State, exclude: Option<int>) {
    forall i :: 0 <= i < |s.data| && s.data[i] < |s.requests| ==>
      var r := s.requests[s.data[i]];
      r.expected.PONG? || exclude == Some(r.messageID)
  }

  // ----- the class -----

  class Inflight {
    var data: seq<nat>
    var requests: seq<Request>

    ghost function Now(): State
      reads this
    {
      State(data, requests)
    }

    constructor ()
      ensures Now() == State([], [])
    {
      data, requests := [], [];
    }

    /** `fetchResponse` up to its await. */
    method FetchResponse(messageID: int, expected: MessageType) returns (r: Outcome<nat>)
      modifies this
      ensures ValidResponseType(expected) ==> r == Ok(|old(requests)|) && Now() == Fetched(old(Now()), messageID, expected)
      ensures !ValidResponseType(expected) ==> r.Throw? && Now() == old(Now())
    {
      if !ValidResponseType(expected) {
        return Throw;
      }
      data := data + [|requests|];
      requests := requests + [Request(messageID, expected, Pending, false, false, BeforeVisual)];
      return Ok(|requests| - 1);
    }

    /** The part of `fetchResponse` after its await. */
    method Conclude(h: nat) returns (effects: seq<Effect>)
      requires h < |requests| && Held(Now()) && !requests[h].result.Pending?
      modifies this
      ensures Now() == Concluded(old(Now()), h).0 && effects == Concluded(old(Now()), h).1
    {
      requests := requests[h := requests[h].(concluded := true)];
      effects := [];
      if requests[h].result == Rejected(SocketTimeout) {
        ClearRequest(h);
        assert Now() == State(Cleared(old(data), h), old(requests)[h := old(requests)[h].(concluded := true)]);
        RejectAll(SocketClosed);
        effects := [TimedOut];
      } else {
        if requests[h].lateResponse {
          effects := [SetLateResponse(requests[h].messageID, false)];
        }
        ClearRequest(h);
      }
    }

    /** `timeout` after its first sleep. */
    method AfterVisualTimeout(h: nat) returns (effects: seq<Effect>)
      requires h < |requests| && requests[h].timer.BeforeVisual?
      modifies this
      ensures (Now(), effects) == VisualTimerFired(old(Now()), h)
    {
      if requests[h].concluded {
        requests := requests[h := requests[h].(timer := Over)];
        return [];
      }
      requests := requests[h := requests[h].(lateResponse := true, timer := BeforeSocket)];
      return [SetLateResponse(requests[h].messageID, true)];
    }

    /** `timeout` after its second sleep. */
    method AfterSocketTimeout(h: nat)
      requires h < |requests| && requests[h].timer.BeforeSocket?
      modifies this
      ensures Now() == SocketTimerFired(old(Now()), h)
    {
      requests := requests[h := Settle(requests[h].(timer := Over), Rejected(SocketTimeout))];
    }

    method ClearRequest(requestToClear: nat)
      modifies this`data
      ensures data == Cleared(old(data), requestToClear)
    {
      var kept: seq<nat> := [];
      for i := 0 to |data|
        invariant data == old(data)
        invariant kept == Cleared(data[..i], requestToClear)
      {
        assert data[..i + 1][..i] == data[..i];
        if data[i] != requestToClear {
          kept := kept + [data[i]];
        }
      }
      assert data[..|data|] == data;
      data := kept;
    }

    method ResolveRequestsForMessage(m: ServerMessage)
      requires Held(Now())
      modifies this`requests
      ensures Now() == Answered(old(Now()), m)
    {
      for i := 0 to |data|
        invariant |requests| == |old(requests)|
        invariant forall h :: 0 <= h < |requests| ==>
          requests[h] == if h in data[..i] then AnsweredBy(old(requests)[h], m) else old(requests)[h]
      {
        var h := data[i];
        assert h in data;
        if m.responseTo == Some(requests[h].messageID) {
          if m.mtype.ERROR? {
            requests := requests[h := Settle(requests[h], Rejected(ServerError))];
          } else if m.mtype.AUTH_ERROR? {
            requests := requests[h := Settle(requests[h], Rejected(SocketOffline))];
          } else if m.mtype == requests[h].expected && ValidResponseType(m.mtype) {
            requests := requests[h := Settle(requests[h], Resolved(m))];
          }
        }
      }
      assert data[..|data|] == data;
    }

    method RejectAll(reason: Reason)
      requires Held(Now())
      modifies this
      ensures Now() == AllRejected(old(Now()), reason)
    {
      var inflight := data;
      data := [];
      for i := 0 to |inflight|
        invariant data == [] && |requests| == |old(requests)|
        invariant forall h :: 0 <= h < |requests| ==>
          requests[h] == if h in inflight[..i] then Settle(old(requests)[h], Rejected(reason)) else old(requests)[h]
      {
        assert inflight[i] in inflight;
        requests := requests[inflight[i] := Settle(requests[inflight[i]], Rejected(reason))];
      }
      assert inflight[..|inflight|] == inflight;
    }

    method AllRequestsResolvedExcept(exclude: Option<int>) returns (all: bool)
      requires Held(Now())
      ensures all == AllResolvedExcept(Now(), exclude)
    {
      for i := 0 to |data|
        invariant forall j :: 0 <= j < |data| ==> data[j] in data && data[j] < |requests|
        invariant forall j :: 0 <= j < i ==> requests[data[j]].expected.PONG? || exclude == Some(requests[data[j]].messageID)
      {
        var r := requests[data[i]];
        if !r.expected.PONG? && exclude != Some(r.messageID) {
          return false;
        }
      }
      return true;
    }
  }

  // ----- steps, in any order -----

  datatype Step =
    | Fetch(messageID: int, expected: MessageType)
    | Message(message: ServerMessage)
    | VisualTimer(handle: nat)
    | SocketTimer(handle: nat)
    | Continuation(handle: nat)
    | CloseAll(reason: Reason)

  /** Timers fire once and in order; a continuation runs after its race is over; the object itself and its
      owner reject with other errors than a timeout. */
  predicate Enabled(s: State, step: Step) {
    match step
    case Fetch(_, expected) => ValidResponseType(expected)
    case Message(_) => true
    case VisualTimer(h) => h < |s.requests| && s.requests[h].timer.BeforeVisual?
    case SocketTimer(h) => h < |s.requests| && s.requests[h].timer.BeforeSocket?
    case Continuation(h) => h < |s.requests| && !s.requests[h].result.Pending?
    case CloseAll(reason) => !reason.SocketTimeout?
  }

  function After(s: State, step: Step): State
    requires Enabled(s, step)
  {
    match step
    case Fetch(messageID, expected) => Fetched(s, messageID, expected)
    case Message(m) => Answered(s, m)
    case VisualTimer(h) => VisualTimerFired(s, h).0
    case SocketTimer(h) => SocketTimerFired(s, h)
    case Continuation(h) => Concluded(s, h).0
    case CloseAll(reason) => AllRejected(s, reason)
  }

  // ----- what every step keeps -----

  /** A request is resolved only with a message of the type it expects that answers its own ID. */
  ghost predicate RequestSound(r: Request) {
    && ValidResponseType(r.expected)
    && (r.concluded ==> !r.result.Pending?)
    && (r.lateResponse ==> !r.timer.BeforeVisual?)
    && (r.result.Resolved? ==> r.result.message.mtype == r.expected && r.result.message.responseTo == Some(r.messageID))
  }

  ghost predicate RequestPlaced(s: State, h: nat)
    requires h < |s.requests|
  {
    && (s.requests[h].concluded ==> h !in s.data)
    && (s.requests[h].result.Pending? ==> h in s.data)
  }

  /** `data` lists distinct requests, none of them concluded, among them all that still wait. */
  ghost predicate Inv(s: State) {
    && Held(s) && NoDup(s.data)
    && (forall h {:trigger s.requests[h]} :: 0 <= h < |s.requests| ==> RequestSound(s.requests[h]))
    && (forall h: nat {:trigger RequestPlaced(s, h)} :: h < |s.requests| ==> RequestPlaced(s, h))
  }

  /** What a step leaves of a request: a concluded one stays as it was, a settled one keeps its result. */
  ghost predicate RequestKept(before: Request, after: Request) {
    && after.messageID == before.messageID && after.expected == before.expected
    && (!before.result.Pending? ==> after.result == before.result)
    && (before.concluded ==> after.concluded)
    && (before.lateResponse ==> after.lateResponse)
  }

  ghost predicate Kept(before: State, after: State) {
    && |before.requests| <= |after.requests|
    && forall h :: 0 <= h < |before.requests| ==> RequestKept(before.requests[h], after.requests[h])
  }

  lemma StepKeepsRequests(s: State, step: Step)
    requires Inv(s) && Enabled(s, step)
    ensures Kept(s, After(s, step))
  {
  }

  lemma StepKeepsSound(s: State, step: Step, h: nat)
    requires Inv(s) && Enabled(s, step) && h < |After(s, step).requests|
    ensures RequestSound(After(s, step).requests[h])
  {
    if h < |s.requests| {
      assert RequestSound(s.requests[h]);
    }
  }

  lemma StepKeepsPlaced(s: State, step: Step, h: nat)
    requires Inv(s) && Enabled(s, step) && h < |After(s, step).requests|
    ensures RequestPlaced(After(s, step), h)
  {
    if h < |s.requests| {
      assert RequestPlaced(s, h);
    } else {
      assert s.data + [h] == After(s, step).data;
    }
  }

  lemma StepKeepsData(s: State, step: Step)
    requires Inv(s) && Enabled(s, step)
    ensures Held(After(s, step)) && NoDup(After(s, step).data)
  {
    match step
    case Continuation(h) => DifferenceNoDup(s.data, [h]);
    case Fetch(_, _) => NoDupConcat(s.data, [|s.requests|]);
    case _ =>
  }

  lemma StepKeepsInv(s: State, step: Step)
    requires Inv(s) && Enabled(s, step)
    ensures Inv(After(s, step))
  {
    var t := After(s, step);
    StepKeepsData(s, step);
    forall h | 0 <= h < |t.requests|
      ensures RequestSound(t.requests[h])
    {
      StepKeepsSound(s, step, h);
    }
    forall h: nat | h < |t.requests|
      ensures RequestPlaced(t, h)
    {
      StepKeepsPlaced(s, step, h);
    }
  }

  // ----- runs: any interleaving -----

  datatype Run = Start | Then(before: Run, step: Step)

  /** The run is possible: each step is enabled where it happens, and a continuation is one that a
      settlement has scheduled and that has not run yet. */
  predicate Possible(run: Run) {
    run.Then? ==>
      && Possible(run.before) && Enabled(Final(run.before), run.step)
      && (run.step.Continuation? ==> Continuations(run.before, run.step.handle) < Settlements(run.before, run.step.handle))
  }

  /** How often the continuation of a request has run. */
  function Continuations(run: Run, h: nat): nat {
    if run.Start? then 0 else Continuations(run.before, h) + (if run.step == Continuation(h) then 1 else 0)
  }

  predicate Waits(s: State, h: nat) {
    h < |s.requests| && s.requests[h].result.Pending?
  }

  /** How often a step has settled a request that waited: each time the continuation is scheduled. */
  function Settlements(run: Run, h: nat): nat {
    if run.Start? then 0
    else Settlements(run.before, h) + (if Waits(Final(run.before), h) && !Waits(Final(run), h) then 1 else 0)
  }

  function Final(run: Run): State {
    match run
    case Start => State([], [])
    case Then(before, step) =>
      var s := Final(before);
      if Enabled(s, step) then After(s, step) else s
  }

  predicate Extends(later: Run, earlier: Run) {
    later == earlier || (later.Then? && Extends(later.before, earlier))
  }

  lemma {:induction false} RunInv(run: Run)
    requires Possible(run)
    ensures Inv(Final(run))
  {
    if run.Then? {
      RunInv(run.before);
      StepKeepsInv(Final(run.before), run.step);
    }
  }

  /** However the steps interleave, a request that has concluded stays concluded with the same result
      and is never in `data` again. */
  lemma {:induction false} ConcludedForGood(earlier: Run, later: Run, h: nat)
    requires Possible(later) && Extends(later, earlier)
    requires h < |Final(earlier).requests| && Final(earlier).requests[h].concluded
    ensures h < |Final(later).requests| && Final(later).requests[h].concluded && h !in Final(later).data
    ensures Final(later).requests[h].result == Final(earlier).requests[h].result
  {
    RunInv(later);
    if later == earlier {
      assert RequestPlaced(Final(later), h);
    } else {
      ConcludedForGood(earlier, later.before, h);
      RunInv(later.before);
      StepKeepsRequests(Final(later.before), later.step);
      assert RequestSound(Final(later.before).requests[h]);
      assert RequestKept(Final(later.before).requests[h], Final(later).requests[h]);
      assert RequestPlaced(Final(later), h);
    }
  }

  /** However often responses, errors, timers and closes compete for it, a request is settled at most
      once; so it concludes at most once, and `concluded` says whether it has. */
  lemma {:induction false} ConcludesOnce(run: Run, h: nat)
    requires Possible(run)
    ensures var s := Final(run);
      && Settlements(run, h) == (if h < |s.requests| && !s.requests[h].result.Pending? then 1 else 0)
      && Continuations(run, h) == (if h < |s.requests| && s.requests[h].concluded then 1 else 0)
  {
    if run.Then? {
      ConcludesOnce(run.before, h);
      RunInv(run.before);
      StepKeepsRequests(Final(run.before), run.step);
      if h < |Final(run.before).requests| {
        assert RequestKept(Final(run.before).requests[h], Final(run).requests[h]);
        assert RequestSound(Final(run.before).requests[h]);
      }
    }
  }

  /** A resolved request was resolved with the type of message it asked for: the unchecked cast of the
      response is right. */
  lemma ResponsesFit(run: Run, h: nat)
    requires Possible(run) && h < |Final(run).requests| && Final(run).requests[h].result.Resolved?
    ensures Final(run).requests[h].result.message.mtype == Final(run).requests[h].expected
    ensures Final(run).requests[h].result.message.responseTo == Some(Final(run).requests[h].messageID)
  {
    RunInv(run);
  }

  /** After `rejectAll`, in every later state, no earlier request is inflight or waiting, and none has
      another result than `rejectAll` left it. */
  lemma {:induction false} RejectAllForGood(before: Run, reason: Reason, later: Run, h: nat)
    requires Possible(later) && Extends(later, Then(before, CloseAll(reason))) && h < |Final(before).requests|
    ensures h < |Final(later).requests| && h !in Final(later).data && !Final(later).requests[h].result.Pending?
    ensures Final(later).requests[h].result ==
            if Final(before).requests[h].result.Pending? then Rejected(reason) else Final(before).requests[h].result
  {
    var close := Then(before, CloseAll(reason));
    if later == close {
      RunInv(before);
      assert RequestPlaced(Final(before), h);
    } else {
      RejectAllForGood(before, reason, later.before, h);
      RunInv(later.before);
      StepKeepsRequests(Final(later.before), later.step);
      assert RequestKept(Final(later.before).requests[h], Final(later).requests[h]);
    }
  }

  /** A step leaves a request as it was, and inflight if it was. */
  predicate LeavesAlone(s: State, t: State, other: nat)
    requires other < |s.requests|
  {
    other < |t.requests| && t.requests[other] == s.requests[other] && (other in t.data <==> other in s.data)
  }

  /** The continuation of one request leaves another alone exactly unless it reports a timeout while the
      other is inflight. */
  lemma ContinuationIsLocal(s: State, h: nat, other: nat)
    requires Inv(s) && Enabled(s, Continuation(h)) && other < |s.requests| && other != h
    ensures LeavesAlone(s, After(s, Continuation(h)), other)
            <==> s.requests[h].result != Rejected(SocketTimeout) || other !in s.data
  {
  }

  /** When the continuation of a request that `rejectAll` found inflight or settled runs, however much later,
      it leaves every other request alone exactly unless the request had timed out before and the other is
      inflight. */
  lemma RejectedLeavesOthers(before: Run, reason: Reason, later: Run, h: nat, other: nat)
    requires Possible(Then(later, Continuation(h))) && Extends(later, Then(before, CloseAll(reason)))
    requires h < |Final(before).requests| && other < |Final(later).requests| && other != h
    ensures LeavesAlone(Final(later), Final(Then(later, Continuation(h))), other)
            <==> Final(before).requests[h].result != Rejected(SocketTimeout) || other !in Final(later).data
  {
    RunInv(later);
    ClosedReason(before, reason, later);
    RejectAllForGood(before, reason, later, h);
    ContinuationIsLocal(Final(later), h, other);
  }

  lemma {:induction false} ClosedReason(before: Run, reason: Reason, later: Run)
    requires Possible(later) && Extends(later, Then(before, CloseAll(reason)))
    ensures !reason.SocketTimeout?
  {
    if later != Then(before, CloseAll(reason)) {
      ClosedReason(before, reason, later.before);
    }
  }

  // ----- a timeout that is reported late -----

  /** Request 0 times out, everything is rejected, and request 1 is sent before the continuation of
      request 0 runs. */
  function TimedOutFirst(): Run {
    Then(Then(Then(Start, Fetch(0, API_RESPONSE)), VisualTimer(0)), SocketTimer(0))
  }

  function SentAfterClose(): Run {
    Then(Then(TimedOutFirst(), CloseAll(SocketClosed)), Fetch(1, API_RESPONSE))
  }

  function TimedOut0(): Request {
    Request(0, API_RESPONSE, Rejected(SocketTimeout), false, true, Over)
  }

  function Sent(messageID: int): Request {
    Request(messageID, API_RESPONSE, Pending, false, false, BeforeVisual)
  }

  lemma TimesOut(s: State, r: Request)
    requires s == State([0], [r]) && r == Sent(0)
    ensures var late := State([0], [r.(lateResponse := true, timer := BeforeSocket)]);
      VisualTimerFired(s, 0).0 == late && SocketTimerFired(late, 0) == State([0], [TimedOut0()])
  {
  }

  lemma ClosedAndSent(s: State)
    requires s == State([0], [TimedOut0()])
    ensures AllRejected(s, SocketClosed) == State([], [TimedOut0()])
    ensures Fetched(State([], [TimedOut0()]), 1, API_RESPONSE) == State([1], [TimedOut0(), Sent(1)])
  {
    assert AllRejected(s, SocketClosed).requests == s.requests;
  }

  lemma ReportsLate(s: State)
    requires s == State([1], [TimedOut0(), Sent(1)])
    ensures Enabled(s, Continuation(0)) && Concluded(s, 0).0.requests[1].result == Rejected(SocketClosed)
  {
    assert 1 in Cleared([1], 0);
  }

  /** A possible run in which the late continuation of a request rejects one sent after `rejectAll`. */
  lemma LateTimeoutRejectsNext()
    ensures Possible(Then(SentAfterClose(), Continuation(0))) && Waits(Final(SentAfterClose()), 1)
    ensures Final(Then(SentAfterClose(), Continuation(0))).requests[1].result == Rejected(SocketClosed)
  {
    var sent := Then(Start, Fetch(0, API_RESPONSE));
    assert Final(sent) == State([0], [Sent(0)]);
    TimesOut(State([0], [Sent(0)]), Sent(0));
    assert Possible(TimedOutFirst()) && Final(TimedOutFirst()) == State([0], [TimedOut0()]);
    ClosedAndSent(State([0], [TimedOut0()]));
    assert Possible(SentAfterClose()) && Final(SentAfterClose()) == State([1], [TimedOut0(), Sent(1)]);
    ReportsLate(Final(SentAfterClose()));
    ConcludesOnce(SentAfterClose(), 0);
  }
}
