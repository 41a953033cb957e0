/** Properties of the socket over every interleaving of its steps: the late-response indicator, what a
    discarded socket leaves behind, and the end of a graceful close. */
module SocketRuns {
  import opened Collections
  import I = InflightRequests
  import opened SocketLifecycle

  // ----- steps -----

  /** Timers, continuations and transport events name the socket they belong to: those of an earlier
      socket do not touch the view. */
  datatype Step =
    | OpenSocket(newStatus: Status)
    | CloseSocket(activityUpdatePending: bool)
    | ForceCloseSocket
    | ChangeURL
    | SetActive(active: bool)
    | SetUsable(usable: bool)
    | TransportOpened(gen: nat, withActivityUpdates: bool)
    | RetryInitial(withActivityUpdates: bool)
    | MarkInitialized
    | TransportClosing
    | TransportClosed(gen: nat)
    | Request(expected: I.MessageType)
    | AckUpdates
    | ReceiveMessage(message: I.ServerMessage)
    | OpenVisualTimer(gen: nat)
    | OpenSocketTimer(gen: nat)
    | VisualTimer(gen: nat, handle: nat)
    | SocketTimer(gen: nat, handle: nat)
    | Continuation(gen: nat, handle: nat)
    | UnsupervisedBackground

  predicate Current(v: View, gen: nat) {
    v.connection.Some? && v.connection.value.gen == gen
  }

  /** The step of the current socket's requests that a step of the socket takes. */
  function InflightStep(step: Step): I.Step
    requires step.VisualTimer? || step.SocketTimer? || step.Continuation?
  {
    match step
    case VisualTimer(_, h) => I.VisualTimer(h)
    case SocketTimer(_, h) => I.SocketTimer(h)
    case Continuation(_, h) => I.Continuation(h)
  }

  predicate Enabled(v: View, step: Step) {
    match step
    case RetryInitial(_) => v.connection.Some?
    case Request(expected) => v.connection.Some? && I.ValidResponseType(expected)
    case AckUpdates => v.connection.Some?
    case UnsupervisedBackground => v.status == Connected
    case VisualTimer(gen, _) => Current(v, gen) ==> I.Enabled(v.connection.value.inflight, InflightStep(step))
    case SocketTimer(gen, _) => Current(v, gen) ==> I.Enabled(v.connection.value.inflight, InflightStep(step))
    case Continuation(gen, _) => Current(v, gen) ==> I.Enabled(v.connection.value.inflight, InflightStep(step))
    case _ => true
  }

  function AfterTransportOpened(v: View, gen: nat, withActivityUpdates: bool): View
    requires Current(v, gen)
  {
    var sent := SentInitial(v, withActivityUpdates);
    sent.(connection := Some(sent.connection.value.(readyState := 1, initializeMessageSent := true)))
  }

  function AfterVisualTimer(v: View, h: nat): View
    requires v.connection.Some? && h < |v.connection.value.inflight.requests|
  {
    var r := I.VisualTimerFired(v.connection.value.inflight, h);
    Heard(WithInflight(v, r.0), r.1)
  }

  function AfterContinuation(v: View, h: nat): View
    requires v.connection.Some? && h < |v.connection.value.inflight.requests|
  {
    var r := I.Concluded(v.connection.value.inflight, h);
    Heard(WithInflight(v, r.0), r.1)
  }

  function After(v: View, step: Step): View
    requires Enabled(v, step)
  {
    match step
    case OpenSocket(newStatus) => Open(v, newStatus)
    case CloseSocket(pending) => Close(v, pending)
    case ForceCloseSocket => ForceClose(v)
    case ChangeURL => ForceClose(v.(reopenConnectionAfterClosing := true))
    case SetActive(active) => v.(active := active)
    case SetUsable(usable) => v.(usable := usable)
    case TransportOpened(gen, withActivity) => if Current(v, gen) then AfterTransportOpened(v, gen, withActivity) else v
    case RetryInitial(withActivity) => SentInitial(v, withActivity)
    case MarkInitialized => Dispatch(v, Connected)
    case TransportClosing => if v.connection.Some? then v.(connection := Some(v.connection.value.(readyState := 2))) else v
    case TransportClosed(gen) => if Current(v, gen) then Closed(v) else v
    case Request(expected) => Sent(v, expected)
    case AckUpdates => v.(nextClientMessageID := v.nextClientMessageID + 1)
    case ReceiveMessage(m) => Receive(v, m)
    case OpenVisualTimer(gen) =>
      if Current(v, gen) && !v.connection.value.initializeMessageSent then v.(lateResponses := v.lateResponses + {-1}) else v
    case OpenSocketTimer(gen) =>
      if Current(v, gen) && !v.connection.value.initializeMessageSent then FinishClosing(v, None) else v
    case VisualTimer(gen, h) => if Current(v, gen) then AfterVisualTimer(v, h) else v
    case SocketTimer(gen, h) => if Current(v, gen) then WithInflight(v, I.SocketTimerFired(v.connection.value.inflight, h)) else v
    case Continuation(gen, h) => if Current(v, gen) then AfterContinuation(v, h) else v
    case UnsupervisedBackground => Dispatch(v, Disconnected)
  }

  // ----- the late-response indicator -----

  /** A late ID belongs to a request that is past its visual timeout and has not concluded. */
  ghost predicate LateRequest(s: I.State, h: nat, id: int) {
    h < |s.requests| && s.requests[h].messageID == id && s.requests[h].lateResponse && !s.requests[h].concluded
  }

  ghost predicate Witnessed(s: I.State, id: int) {
    exists h: nat :: LateRequest(s, h, id)
  }

  ghost predicate LateSound(late: set<int>, s: I.State) {
    forall id :: id in late ==> id == -1 || Witnessed(s, id)
  }

  /** While a socket lives: its requests are in order, and every late ID but the -1 of a slow opening is
      that of an unconcluded request past the visual timeout. */
  ghost predicate ViewInv(v: View) {
    v.connection.Some? ==>
      && v.connection.value.gen < v.gens
      && I.Inv(v.connection.value.inflight)
      && LateSound(v.lateResponses, v.connection.value.inflight)
  }

  lemma OpenInv(v: View, newStatus: Status)
    requires ViewInv(v)
    ensures ViewInv(Open(v, newStatus))
  {
  }

  lemma FinishClosingInv(v: View, exclude: Option<int>)
    requires ViewInv(v)
    ensures ViewInv(FinishClosing(v, exclude))
  {
  }

  ghost predicate StaysLate(r: I.Request, q: I.Request) {
    q.messageID == r.messageID && (r.lateResponse ==> q.lateResponse) && (q.concluded ==> r.concluded)
  }

  /** A step that leaves late requests late and unconcluded leaves late IDs sound. */
  lemma LateKept(late: set<int>, s: I.State, t: I.State)
    requires LateSound(late, s) && |s.requests| <= |t.requests|
    requires forall h :: 0 <= h < |s.requests| ==> StaysLate(s.requests[h], t.requests[h])
    ensures LateSound(late, t)
  {
    forall id | id in late && id != -1
      ensures Witnessed(t, id)
    {
      var h: nat :| LateRequest(s, h, id);
      assert LateRequest(t, h, id);
    }
  }

  lemma SentInitialInv(v: View, withActivityUpdates: bool)
    requires ViewInv(v) && v.connection.Some?
    ensures ViewInv(SentInitial(v, withActivityUpdates))
  {
    var s, id := v.connection.value.inflight, v.nextClientMessageID;
    var first := if withActivityUpdates then I.Fetched(s, id, I.ACTIVITY_UPDATE_RESPONSE) else s;
    if withActivityUpdates {
      I.StepKeepsInv(s, I.Fetch(id, I.ACTIVITY_UPDATE_RESPONSE));
    }
    I.StepKeepsInv(first, I.Fetch(id, I.STATE_SYNC));
    LateKept(v.lateResponses, s, I.Fetched(first, id, I.STATE_SYNC));
  }

  lemma ReceiveInv(v: View, m: I.ServerMessage)
    requires ViewInv(v)
    ensures ViewInv(Receive(v, m))
  {
    if v.connection.Some? {
      var s := v.connection.value.inflight;
      I.StepKeepsInv(s, I.Message(m));
      LateKept(v.lateResponses, s, I.Answered(s, m));
      FinishClosingInv(WithInflight(v, I.Answered(s, m)), m.responseTo);
    }
  }

  /** One call of the `setLateResponse` callback. */
  lemma HeardLate(v: View, id: int, isLate: bool)
    ensures Heard(v, [I.SetLateResponse(id, isLate)])
         == v.(lateResponses := if isLate then v.lateResponses + {id} else v.lateResponses - {id})
  {
    var w := v.(lateResponses := if isLate then v.lateResponses + {id} else v.lateResponses - {id});
    assert [I.SetLateResponse(id, isLate)][1..] == [] && Heard(w, []) == w;
  }

  lemma HeardTimedOut(v: View)
    ensures Heard(v, [I.TimedOut]) == FinishClosing(v, None)
  {
    assert [I.TimedOut][1..] == [] && Heard(FinishClosing(v, None), []) == FinishClosing(v, None);
  }

  lemma VisualTimerInv(v: View, h: nat)
    requires ViewInv(v) && v.connection.Some? && I.Enabled(v.connection.value.inflight, I.VisualTimer(h))
    ensures ViewInv(AfterVisualTimer(v, h))
  {
    var s := v.connection.value.inflight;
    var r := I.VisualTimerFired(s, h);
    I.StepKeepsInv(s, I.VisualTimer(h));
    LateKept(v.lateResponses, s, r.0);
    if !s.requests[h].concluded {
      assert LateRequest(r.0, h, s.requests[h].messageID);
      HeardLate(WithInflight(v, r.0), s.requests[h].messageID, true);
    }
  }

  /** Concluding a request takes its ID off the indicator if it was late; the other late IDs keep their
      requests. */
  lemma ConcludedLate(late: set<int>, s: I.State, h: nat)
    requires I.Inv(s) && I.Enabled(s, I.Continuation(h)) && LateSound(late, s)
    requires s.requests[h].result != I.Rejected(I.SocketTimeout)
    ensures LateSound(if s.requests[h].lateResponse then late - {s.requests[h].messageID} else late, I.Concluded(s, h).0)
  {
    var t := I.Concluded(s, h).0;
    forall id | id in late && id != -1 && (s.requests[h].lateResponse ==> id != s.requests[h].messageID)
      ensures Witnessed(t, id)
    {
      var k: nat :| LateRequest(s, k, id);
      assert LateRequest(t, k, id);
    }
  }

  lemma ContinuationInv(v: View, h: nat)
    requires ViewInv(v) && v.connection.Some? && I.Enabled(v.connection.value.inflight, I.Continuation(h))
    ensures ViewInv(AfterContinuation(v, h))
  {
    var s := v.connection.value.inflight;
    var r := I.Concluded(s, h);
    I.StepKeepsInv(s, I.Continuation(h));
    if s.requests[h].result == I.Rejected(I.SocketTimeout) {
      TimeoutDiscards(v, h);
    } else {
      ConcludedLate(v.lateResponses, s, h);
      if s.requests[h].lateResponse {
        HeardLate(WithInflight(v, r.0), s.requests[h].messageID, false);
      }
    }
  }

  /** A request that times out ends the socket, whatever is still inflight. */
  lemma TimeoutDiscards(v: View, h: nat)
    requires v.connection.Some? && v.connection.value.gen < v.gens && h < |v.connection.value.inflight.requests|
    requires v.connection.value.inflight.requests[h].result == I.Rejected(I.SocketTimeout)
    ensures Discarded(v, AfterContinuation(v, h))
    ensures AfterContinuation(v, h).connection.Some? ==>
      AfterContinuation(v, h).lateResponses == {} && AfterContinuation(v, h).connection.value == Connection(v.gens, I.State([], []), 0, false)
  {
    var r := I.Concluded(v.connection.value.inflight, h);
    HeardTimedOut(WithInflight(v, r.0));
  }

  lemma RequestInv(v: View, expected: I.MessageType)
    requires ViewInv(v) && v.connection.Some? && I.ValidResponseType(expected)
    ensures ViewInv(Sent(v, expected))
  {
    var s := v.connection.value.inflight;
    I.StepKeepsInv(s, I.Fetch(v.nextClientMessageID, expected));
    LateKept(v.lateResponses, s, I.Fetched(s, v.nextClientMessageID, expected));
  }

  lemma SocketTimerInv(v: View, h: nat)
    requires ViewInv(v) && v.connection.Some? && I.Enabled(v.connection.value.inflight, I.SocketTimer(h))
    ensures ViewInv(WithInflight(v, I.SocketTimerFired(v.connection.value.inflight, h)))
  {
    var s := v.connection.value.inflight;
    I.StepKeepsInv(s, I.SocketTimer(h));
    LateKept(v.lateResponses, s, I.SocketTimerFired(s, h));
  }

  lemma StepInv(v: View, step: Step)
    requires ViewInv(v) && Enabled(v, step)
    ensures ViewInv(After(v, step))
  {
    match step
    case TransportOpened(gen, withActivity) =>
      if Current(v, gen) {
        SentInitialInv(v, withActivity);
      }
    case RetryInitial(withActivity) => SentInitialInv(v, withActivity);
    case Request(expected) => RequestInv(v, expected);
    case ReceiveMessage(m) => ReceiveInv(v, m);
    case VisualTimer(gen, h) =>
      if Current(v, gen) {
        VisualTimerInv(v, h);
      }
    case SocketTimer(gen, h) =>
      if Current(v, gen) {
        SocketTimerInv(v, h);
      }
    case Continuation(gen, h) =>
      if Current(v, gen) {
        ContinuationInv(v, h);
      }
    case _ => PlainStepInv(v, step);
  }

  lemma PlainStepInv(v: View, step: Step)
    requires ViewInv(v) && Enabled(v, step)
    requires !step.TransportOpened? && !step.RetryInitial? && !step.Request? && !step.ReceiveMessage?
    requires !step.VisualTimer? && !step.SocketTimer? && !step.Continuation?
    ensures ViewInv(After(v, step))
  {
    match step
    case OpenSocket(newStatus) => OpenInv(v, newStatus);
    case CloseSocket(pending) => FinishClosingInv(Dispatch(v, Disconnecting), None);
    case ForceCloseSocket => ForceCloseInv(v);
    case ChangeURL => ForceCloseInv(v.(reopenConnectionAfterClosing := true));
    case OpenSocketTimer(gen) => FinishClosingInv(v, None);
    case _ =>
  }

  lemma ForceCloseInv(v: View)
    requires ViewInv(v)
    ensures ViewInv(ForceClose(v))
  {
    FinishClosingInv(if v.status != ForcedDisconnecting && v.status != Disconnected then Dispatch(v, ForcedDisconnecting) else v, None);
  }

  // ----- runs -----

  datatype Run = Start(active: bool, usable: bool) | Then(before: Run, step: Step)

  /** The view a run ends in; it starts without a socket. */
  function Final(run: Run): View {
    match run
    case Start(active, usable) => View(None, 0, Connecting, {}, 0, false, active, usable)
    case Then(before, step) =>
      var v := Final(before);
      if Enabled(v, step) then After(v, step) else v
  }

  predicate Possible(run: Run) {
    run.Then? ==> Possible(run.before) && Enabled(Final(run.before), run.step)
  }

  /** Under every interleaving, no response is shown as late without a late request behind it. */
  lemma {:induction false} RunInv(run: Run)
    requires Possible(run)
    ensures ViewInv(Final(run))
  {
    if run.Then? {
      RunInv(run.before);
      StepInv(Final(run.before), run.step);
    }
  }

  // ----- what a discarded socket leaves behind -----

  predicate Discarded(before: View, after: View) {
    before.connection.Some? && (after.connection.None? || after.connection.value.gen != before.connection.value.gen)
  }

  /** The requests of the current socket as the step leaves them, should it discard the socket. */
  function Leaving(v: View, step: Step): I.State
    requires v.connection.Some? && Enabled(v, step)
  {
    var s := v.connection.value.inflight;
    match step
    case ReceiveMessage(m) => I.Answered(s, m)
    case TransportClosed(gen) => if Current(v, gen) then I.AllRejected(s, I.SocketClosed) else s
    case Continuation(gen, h) => if Current(v, gen) then I.Concluded(s, h).0 else s
    case _ => s
  }

  ghost predicate WaitsFor(r: I.Request) {
    !r.expected.PONG? && r.result.Pending?
  }

  /** Every request but a ping has been resolved or rejected. */
  ghost predicate Settled(s: I.State) {
    forall h :: 0 <= h < |s.requests| ==> !WaitsFor(s.requests[h])
  }

  /** Every waiting request with the ID that the message answers takes this type of message. */
  ghost predicate AnswersAll(s: I.State, m: I.ServerMessage) {
    forall h :: 0 <= h < |s.requests| && WaitsFor(s.requests[h]) && m.responseTo == Some(s.requests[h].messageID)
      ==> !I.Answer(m, s.requests[h].expected).Pending?
  }

  /** No request listed in `data` but a ping lacks its response: what the opener of a socket can look up. */
  predicate AllAnswered(s: I.State) {
    forall i :: 0 <= i < |s.data| && s.data[i] < |s.requests| ==>
      s.requests[s.data[i]].expected.PONG? || !s.requests[s.data[i]].result.Pending?
  }

  /** A message must answer all waiting requests that share its ID; reopening over a socket that Redux
      takes for closed must find all listed requests answered. */
  ghost predicate DiscardFits(v: View, step: Step)
    requires v.connection.Some?
  {
    match step
    case ReceiveMessage(m) => AnswersAll(v.connection.value.inflight, m)
    case OpenSocket(_) => AllAnswered(v.connection.value.inflight)
    case _ => true
  }

  /** Closing looks only at `data`, but a request outside `data` waits for nothing. */
  lemma ExcludedAreSettled(s: I.State, exclude: Option<int>)
    requires I.Inv(s) && I.AllResolvedExcept(s, exclude)
    ensures forall h :: 0 <= h < |s.requests| && WaitsFor(s.requests[h]) ==> exclude == Some(s.requests[h].messageID)
  {
    forall h | 0 <= h < |s.requests| && WaitsFor(s.requests[h])
      ensures exclude == Some(s.requests[h].messageID)
    {
      assert I.RequestPlaced(s, h);
      var i :| 0 <= i < |s.data| && s.data[i] == h;
    }
  }

  /** A waiting request is listed in `data`, so what `data` lists decides whether any request waits. */
  lemma ListedDecide(s: I.State)
    requires I.Inv(s)
    ensures Settled(s) <==> AllAnswered(s)
  {
    forall h | 0 <= h < |s.requests| && WaitsFor(s.requests[h])
      ensures !AllAnswered(s)
    {
      assert I.RequestPlaced(s, h);
      var i :| 0 <= i < |s.data| && s.data[i] == h;
    }
    forall i | 0 <= i < |s.data|
      ensures s.data[i] < |s.requests|
    {
      assert s.data[i] in s.data;
    }
  }

  lemma RejectedAreSettled(s: I.State, reason: I.Reason)
    requires I.Inv(s)
    ensures Settled(I.AllRejected(s, reason))
  {
    forall h | 0 <= h < |s.requests|
      ensures !WaitsFor(I.AllRejected(s, reason).requests[h])
    {
      assert I.RequestPlaced(s, h);
    }
  }

  lemma ReceiveDiscards(v: View, m: I.ServerMessage)
    requires ViewInv(v) && v.connection.Some? && Discarded(v, Receive(v, m))
    ensures Settled(I.Answered(v.connection.value.inflight, m)) <==> AnswersAll(v.connection.value.inflight, m)
  {
    var s := v.connection.value.inflight;
    var t := I.Answered(s, m);
    I.StepKeepsInv(s, I.Message(m));
    assert I.AllResolvedExcept(t, m.responseTo);
    ExcludedAreSettled(t, m.responseTo);
    forall h | 0 <= h < |s.requests|
      ensures WaitsFor(t.requests[h]) <==>
        WaitsFor(s.requests[h]) && m.responseTo == Some(s.requests[h].messageID) && I.Answer(m, s.requests[h].expected).Pending?
    {
      assert I.RequestPlaced(s, h);
    }
  }

  lemma FinishClosingDiscards(v: View, exclude: Option<int>)
    requires v.connection.Some? && v.connection.value.gen < v.gens && Discarded(v, FinishClosing(v, exclude))
    ensures I.AllResolvedExcept(v.connection.value.inflight, exclude)
  {
  }

  lemma ContinuationDiscards(v: View, h: nat)
    requires ViewInv(v) && v.connection.Some? && I.Enabled(v.connection.value.inflight, I.Continuation(h))
    requires Discarded(v, AfterContinuation(v, h))
    ensures Settled(I.Concluded(v.connection.value.inflight, h).0)
  {
    var s := v.connection.value.inflight;
    var r := I.Concluded(s, h);
    if s.requests[h].result == I.Rejected(I.SocketTimeout) {
      var cleared := I.State(I.Cleared(s.data, h), s.requests[h := s.requests[h].(concluded := true)]);
      forall k | 0 <= k < |s.requests|
        ensures !WaitsFor(r.0.requests[k])
      {
        assert I.RequestPlaced(s, k);
      }
    } else {
      HeardLate(WithInflight(v, r.0), s.requests[h].messageID, false);
    }
  }

  /** A step that discards the socket leaves every request but pings resolved or rejected, if and only if
      it meets the condition on it: all but an ill-typed answer, two requests with one ID, and reopening
      over a socket with an unanswered request. */
  lemma DiscardsSettled(v: View, step: Step)
    requires ViewInv(v) && v.connection.Some? && Enabled(v, step) && Discarded(v, After(v, step))
    ensures Settled(Leaving(v, step)) <==> DiscardFits(v, step)
  {
    var s := v.connection.value.inflight;
    match step
    case ReceiveMessage(m) => ReceiveDiscards(v, m);
    case OpenSocket(_) => ListedDecide(s);
    case CloseSocket(pending) =>
      FinishClosingDiscards(Dispatch(v, Disconnecting), None);
      ExcludedAreSettled(s, None);
    case ForceCloseSocket => ForceCloseDiscards(v);
    case ChangeURL => ForceCloseDiscards(v.(reopenConnectionAfterClosing := true));
    case OpenSocketTimer(gen) =>
      FinishClosingDiscards(v, None);
      ExcludedAreSettled(s, None);
    case TransportClosed(gen) => RejectedAreSettled(s, I.SocketClosed);
    case VisualTimer(gen, h) => VisualTimerKeeps(v, step);
    case Continuation(gen, h) => ContinuationDiscards(v, h);
    case _ =>
  }

  lemma VisualTimerKeeps(v: View, step: Step)
    requires step.VisualTimer? && Enabled(v, step)
    ensures !Discarded(v, After(v, step))
  {
    if Current(v, step.gen) {
      var r := I.VisualTimerFired(v.connection.value.inflight, step.handle);
      HeardLate(WithInflight(v, r.0), v.connection.value.inflight.requests[step.handle].messageID, true);
    }
  }

  lemma ForceCloseDiscards(v: View)
    requires ViewInv(v) && v.connection.Some? && Discarded(v, ForceClose(v))
    ensures Settled(v.connection.value.inflight)
  {
    var w := if v.status != ForcedDisconnecting && v.status != Disconnected then Dispatch(v, ForcedDisconnecting) else v;
    FinishClosingDiscards(w, None);
    ExcludedAreSettled(v.connection.value.inflight, None);
  }

  // ----- reopening over a socket that is still there -----

  /** The status that Redux shows makes the opener take the socket it has for closed. */
  predicate TakenForClosed(v: View) {
    v.usable && v.connection.Some? && (v.status == Disconnected || (v.status == Disconnecting && v.connection.value.readyState != 1))
  }

  /** Opening drops the socket that is there, with a request that still waits on it, exactly if the socket
      is taken for closed and `data` lists an unanswered request that is no ping. */
  lemma ReopeningStrandsIff(v: View, newStatus: Status)
    requires ViewInv(v) && v.connection.Some?
    ensures Discarded(v, Open(v, newStatus)) <==> TakenForClosed(v)
    ensures (Discarded(v, Open(v, newStatus)) && !Settled(v.connection.value.inflight))
            <==> (TakenForClosed(v) && !AllAnswered(v.connection.value.inflight))
  {
    ListedDecide(v.connection.value.inflight);
  }

  /** When no continuation is due, the opener could have asked `allRequestsResolvedExcept`. */
  lemma QuietReopening(v: View, newStatus: Status)
    requires ViewInv(v) && Discarded(v, Open(v, newStatus))
    requires forall h :: h in v.connection.value.inflight.data ==> v.connection.value.inflight.requests[h].result.Pending?
    ensures Settled(v.connection.value.inflight) <==> I.AllResolvedExcept(v.connection.value.inflight, None)
  {
    var s := v.connection.value.inflight;
    ListedDecide(s);
    forall i | 0 <= i < |s.data|
      ensures s.data[i] < |s.requests| && s.requests[s.data[i]].result.Pending?
    {
      assert s.data[i] in s.data;
    }
  }

  function ConnectingRun(): Run {
    Then(Then(Start(true, true), OpenSocket(Connecting)), TransportOpened(0, false))
  }

  function Waiting(messageID: int, expected: I.MessageType): I.Request {
    I.Request(messageID, expected, I.Pending, false, false, I.BeforeVisual)
  }

  lemma ConnectingRunEnds()
    ensures Possible(ConnectingRun())
    ensures Final(ConnectingRun())
         == View(Some(Connection(0, I.State([0], [Waiting(0, I.STATE_SYNC)]), 1, true)), 1, Connecting, {}, 1, false, true, true)
  {
    var v1 := After(View(None, 0, Connecting, {}, 0, false, true, true), OpenSocket(Connecting));
    assert After(v1, TransportOpened(0, false)).connection.value.inflight == I.State([0], [Waiting(0, I.STATE_SYNC)]);
  }

  /** A close waits for the state sync, and the transport starts closing by itself. */
  function ClosingRun(): Run {
    Then(Then(ConnectingRun(), CloseSocket(false)), TransportClosing)
  }

  /** A possible run in which the user comes back before the transport has closed: opening a new socket
      leaves the state sync of the old one waiting. */
  lemma ReopeningStrandsStateSync()
    ensures Possible(ClosingRun()) && Final(ClosingRun()).connection.Some?
    ensures Discarded(Final(ClosingRun()), After(Final(ClosingRun()), OpenSocket(Connecting)))
    ensures !Settled(Leaving(Final(ClosingRun()), OpenSocket(Connecting)))
  {
    ConnectingRunEnds();
    var s := I.State([0], [Waiting(0, I.STATE_SYNC)]);
    assert s.data[0] == 0 && !I.AllResolvedExcept(s, None);
    var closing := Then(ConnectingRun(), CloseSocket(false));
    assert Final(closing) == Dispatch(Final(ConnectingRun()), Disconnecting);
    assert Final(ClosingRun()) == After(Final(closing), TransportClosing);
    assert WaitsFor(s.requests[0]);
  }

  function StateSync(): I.ServerMessage {
    I.ServerMessage(I.STATE_SYNC, Some(0))
  }

  function Synced(concluded: bool): I.Request {
    I.Request(0, I.STATE_SYNC, I.Resolved(StateSync()), concluded, false, I.BeforeVisual)
  }

  lemma StateSyncAnswers()
    ensures I.Answered(I.State([0], [Waiting(0, I.STATE_SYNC)]), StateSync()) == I.State([0], [Synced(false)])
    ensures I.Concluded(I.State([0], [Synced(false)]), 0) == (I.State([], [Synced(true)]), [])
  {
    var answered := I.Answered(I.State([0], [Waiting(0, I.STATE_SYNC)]), StateSync());
    assert 0 in [0] && answered.requests == [Synced(false)];
    assert [0][..0] == [] && I.Cleared([0], 0) == [];
    assert [Synced(false)][0 := Synced(true)] == [Synced(true)];
  }

  /** The socket 0 of a run, with the given requests. */
  function OnSocket(s: I.State, readyState: nat, status: Status, next: nat): View {
    View(Some(Connection(0, s, readyState, true)), 1, status, {}, next, false, true, true)
  }

  lemma ReceiveStateSync(v: View)
    requires v == OnSocket(I.State([0], [Waiting(0, I.STATE_SYNC)]), 1, Connecting, 1)
    ensures Receive(v, StateSync()) == OnSocket(I.State([0], [Synced(false)]), 1, Connecting, 1)
    ensures AfterContinuation(Receive(v, StateSync()), 0) == OnSocket(I.State([], [Synced(true)]), 1, Connecting, 1)
  {
    StateSyncAnswers();
    var w := OnSocket(I.State([], [Synced(true)]), 1, Connecting, 1);
    assert Heard(w, []) == w;
  }

  lemma Goes(run: Run, step: Step, v: View, w: View)
    requires Possible(run) && Final(run) == v && Enabled(v, step) && After(v, step) == w
    ensures Possible(Then(run, step)) && Final(Then(run, step)) == w
  {
  }

  /** The state sync arrives, and the socket is used. */
  function Synchronized(run: Run): Run {
    Then(Then(Then(Then(run, ReceiveMessage(StateSync())), Continuation(0, 0)), AckUpdates), MarkInitialized)
  }

  lemma SynchronizedEnds(run: Run)
    requires Possible(run) && Final(run) == OnSocket(I.State([0], [Waiting(0, I.STATE_SYNC)]), 1, Connecting, 1)
    ensures Possible(Synchronized(run)) && Final(Synchronized(run)) == OnSocket(I.State([], [Synced(true)]), 1, Connected, 2)
  {
    var waiting, answered := I.State([0], [Waiting(0, I.STATE_SYNC)]), I.State([0], [Synced(false)]);
    var done := I.State([], [Synced(true)]);
    ReceiveStateSync(OnSocket(waiting, 1, Connecting, 1));
    var received := Then(run, ReceiveMessage(StateSync()));
    Goes(run, ReceiveMessage(StateSync()), OnSocket(waiting, 1, Connecting, 1), OnSocket(answered, 1, Connecting, 1));
    Goes(received, Continuation(0, 0), OnSocket(answered, 1, Connecting, 1), OnSocket(done, 1, Connecting, 1));
    var concluded := Then(received, Continuation(0, 0));
    Goes(concluded, AckUpdates, OnSocket(done, 1, Connecting, 1), OnSocket(done, 1, Connecting, 2));
    Goes(Then(concluded, AckUpdates), MarkInitialized, OnSocket(done, 1, Connecting, 2), OnSocket(done, 1, Connected, 2));
  }

  /** An API request is under way when the app comes back from the background: the transport is told to
      close and Redux shows it as disconnected, before the transport has closed. */
  function Backgrounded(run: Run): Run {
    Then(Then(Then(run, Request(I.API_RESPONSE)), TransportClosing), UnsupervisedBackground)
  }

  lemma BackgroundedEnds(run: Run)
    requires Possible(run) && Final(run) == OnSocket(I.State([], [Synced(true)]), 1, Connected, 2)
    ensures Possible(Backgrounded(run))
    ensures Final(Backgrounded(run)) == OnSocket(I.State([1], [Synced(true), Waiting(2, I.API_RESPONSE)]), 2, Disconnected, 3)
  {
    var before, s := I.State([], [Synced(true)]), I.State([1], [Synced(true), Waiting(2, I.API_RESPONSE)]);
    assert I.Fetched(before, 2, I.API_RESPONSE) == s;
    var requested := Then(run, Request(I.API_RESPONSE));
    Goes(run, Request(I.API_RESPONSE), OnSocket(before, 1, Connected, 2), OnSocket(s, 1, Connected, 3));
    Goes(requested, TransportClosing, OnSocket(s, 1, Connected, 3), OnSocket(s, 2, Connected, 3));
    Goes(Then(requested, TransportClosing), UnsupervisedBackground, OnSocket(s, 2, Connected, 3), OnSocket(s, 2, Disconnected, 3));
  }

  lemma Strands(run: Run, s: I.State, h: nat)
    requires Final(run) == OnSocket(s, 2, Disconnected, 3) && h < |s.requests| && WaitsFor(s.requests[h])
    ensures Final(run).connection.Some? && Discarded(Final(run), After(Final(run), OpenSocket(Connecting)))
    ensures !Settled(Leaving(Final(run), OpenSocket(Connecting)))
  {
  }

  /** A possible run in which opening a new socket leaves an API request of the old one waiting. */
  lemma ReopeningStrandsRequest()
    ensures var run := Backgrounded(Synchronized(ConnectingRun()));
      && Possible(run) && Final(run).connection.Some?
      && Discarded(Final(run), After(Final(run), OpenSocket(Connecting)))
      && !Settled(Leaving(Final(run), OpenSocket(Connecting)))
  {
    ConnectingRunEnds();
    var run := ConnectingRun();
    SynchronizedEnds(run);
    BackgroundedEnds(Synchronized(run));
    Strands(Backgrounded(Synchronized(run)), I.State([1], [Synced(true), Waiting(2, I.API_RESPONSE)]), 1);
  }
}
