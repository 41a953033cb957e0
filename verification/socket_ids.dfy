/** The message IDs of the requests on a socket, over every interleaving of its steps, and what they decide:
    when a graceful close leaves nothing waiting, and where the late ID -1 comes from. */
module SocketIDs {
  import opened Collections
  import I = InflightRequests
  import opened SocketLifecycle
  import opened SocketRuns
  import opened SocketClose

  // ----- IDs are numbers given out before -----

  ghost predicate Numbered(s: I.State, next: nat) {
    forall h :: 0 <= h < |s.requests| ==> 0 <= s.requests[h].messageID < next
  }

  /** No two requests, inflight or not, have one ID. */
  ghost predicate Unshared(s: I.State) {
    forall h, k :: 0 <= h < k < |s.requests| ==> s.requests[h].messageID != s.requests[k].messageID
  }

  ghost predicate ViewNumbered(v: View) {
    v.connection.Some? ==> Numbered(v.connection.value.inflight, v.nextClientMessageID)
  }

  ghost predicate ViewUnshared(v: View) {
    v.connection.Some? ==> Unshared(v.connection.value.inflight)
  }

  /** The initial message carries activity updates, so two responses are awaited under its ID. */
  predicate SharesID(step: Step) {
    (step.TransportOpened? && step.withActivityUpdates) || (step.RetryInitial? && step.withActivityUpdates)
  }

  /** What a step does to the requests of the socket, as far as their IDs are concerned: it may drop them,
      keep them, or add one with the next ID. */
  ghost predicate IDsKept(v: View, w: View) {
    w.connection.Some? ==>
      || w.connection.value.inflight.requests == []
      || (v.connection.Some? && w.nextClientMessageID >= v.nextClientMessageID
          && SameIDs(v.connection.value.inflight.requests, w.connection.value.inflight.requests))
  }

  ghost predicate IDAdded(v: View, w: View) {
    && v.connection.Some? && w.connection.Some? && w.nextClientMessageID == v.nextClientMessageID + 1
    && var before, after := v.connection.value.inflight.requests, w.connection.value.inflight.requests;
      |after| == |before| + 1 && after[..|before|] == before && after[|before|].messageID == v.nextClientMessageID
  }

  ghost predicate SameIDs(before: seq<I.Request>, after: seq<I.Request>) {
    |before| == |after| && forall h :: 0 <= h < |before| ==> before[h].messageID == after[h].messageID
  }

  lemma FinishClosingIDs(v: View, exclude: Option<int>)
    ensures IDsKept(v, FinishClosing(v, exclude))
  {
  }

  lemma ReceiveIDs(v: View, m: I.ServerMessage)
    ensures IDsKept(v, Receive(v, m))
  {
    if v.connection.Some? {
      FinishClosingIDs(WithInflight(v, I.Answered(v.connection.value.inflight, m)), m.responseTo);
    }
  }

  lemma VisualTimerIDs(v: View, h: nat)
    requires v.connection.Some? && h < |v.connection.value.inflight.requests|
    ensures IDsKept(v, AfterVisualTimer(v, h))
  {
    var r := I.VisualTimerFired(v.connection.value.inflight, h);
    HeardLate(WithInflight(v, r.0), v.connection.value.inflight.requests[h].messageID, true);
  }

  lemma ContinuationIDs(v: View, h: nat)
    requires v.connection.Some? && h < |v.connection.value.inflight.requests|
    ensures IDsKept(v, AfterContinuation(v, h))
  {
    var s := v.connection.value.inflight;
    var r := I.Concluded(s, h);
    if s.requests[h].result == I.Rejected(I.SocketTimeout) {
      HeardTimedOut(WithInflight(v, r.0));
      FinishClosingIDs(WithInflight(v, r.0), None);
    } else {
      HeardLate(WithInflight(v, r.0), s.requests[h].messageID, false);
    }
  }

  lemma ForceCloseIDs(v: View)
    ensures IDsKept(v, ForceClose(v))
  {
    FinishClosingIDs(if v.status != ForcedDisconnecting && v.status != Disconnected then Dispatch(v, ForcedDisconnecting) else v, None);
  }

  /** Sending a message that awaits a response. */
  lemma SendIDs(v: View, expected: I.MessageType)
    requires v.connection.Some?
    ensures IDAdded(v, Sent(v, expected)) && IDAdded(v, SentInitial(v, false))
  {
  }

  lemma StepIDs(v: View, step: Step)
    requires Enabled(v, step) && !SharesID(step)
    ensures IDsKept(v, After(v, step)) || IDAdded(v, After(v, step))
  {
    match step
    case CloseSocket(_) => FinishClosingIDs(Dispatch(v, Disconnecting), None);
    case ForceCloseSocket => ForceCloseIDs(v);
    case ChangeURL => ForceCloseIDs(v.(reopenConnectionAfterClosing := true));
    case TransportOpened(gen, _) => if Current(v, gen) { SendIDs(v, I.STATE_SYNC); }
    case RetryInitial(_) => SendIDs(v, I.STATE_SYNC);
    case Request(expected) => SendIDs(v, expected);
    case OpenSocketTimer(_) => FinishClosingIDs(v, None);
    case ReceiveMessage(m) => ReceiveIDs(v, m);
    case VisualTimer(gen, h) => if Current(v, gen) { VisualTimerIDs(v, h); }
    case Continuation(gen, h) => if Current(v, gen) { ContinuationIDs(v, h); }
    case _ =>
  }

  lemma AddedNumbered(v: View, step: Step)
    requires Enabled(v, step) && ViewNumbered(v)
    ensures ViewNumbered(After(v, step))
  {
    if !SharesID(step) {
      StepIDs(v, step);
    }
  }

  /** IDs stay distinct while no initial message carries activity updates. */
  lemma StepUnshared(v: View, step: Step)
    requires Enabled(v, step) && ViewNumbered(v) && ViewUnshared(v) && !SharesID(step)
    ensures ViewUnshared(After(v, step))
  {
    StepIDs(v, step);
  }

  predicate NeverShares(run: Run) {
    run.Then? ==> NeverShares(run.before) && !SharesID(run.step)
  }

  /** Every ID has been given out, so none is negative. */
  lemma {:induction false} RunNumbered(run: Run)
    requires Possible(run)
    ensures ViewNumbered(Final(run))
  {
    if run.Then? {
      RunNumbered(run.before);
      AddedNumbered(Final(run.before), run.step);
    }
  }

  /** In every interleaving without activity updates in an initial message, the requests of the socket have
      distinct IDs. */
  lemma {:induction false} RunUnshared(run: Run)
    requires Possible(run) && NeverShares(run)
    ensures ViewUnshared(Final(run))
  {
    if run.Then? {
      RunNumbered(run.before);
      RunUnshared(run.before);
      StepUnshared(Final(run.before), run.step);
    }
  }

  // ----- graceful close, over runs -----

  /** Each listed request still waits: no continuation is due. */
  ghost predicate NothingDue(s: I.State) {
    forall h :: h in s.data && h < |s.requests| ==> s.requests[h].result.Pending?
  }

  /** In every run whose initial messages carry no activity updates, and whatever messages then arrive, as
      long as answers have a type that their requests take: a close that has to wait ends with as many
      answers as requests were outstanding, not before, and then leaves nothing waiting. */
  lemma GracefulClose(run: Run, messages: seq<I.ServerMessage>)
    requires Possible(run) && NeverShares(run) && EachWellTyped(Final(run), messages)
    requires Closing(Final(run)) && Final(run).connection.Some? && NothingDue(Final(run).connection.value.inflight)
    requires Outstanding(Final(run).connection.value.inflight) != {}
    ensures var v := Final(run);
      && (Discarded(v, AfterAll(v, messages)) <==> Answering(v, messages) == |Outstanding(v.connection.value.inflight)|)
      && (Discarded(v, AfterAll(v, messages)) ==> Settled(LeftBehind(v, messages)))
  {
    RunInv(run);
    RunUnshared(run);
    CloseEnds(Final(run), messages);
    if Discarded(Final(run), AfterAll(Final(run), messages)) {
      CloseSettles(Final(run), messages);
    }
  }

  /** In such a run, a message that lets the socket go leaves nothing waiting exactly if the one waiting
      request with the ID that it answers takes its type. */
  lemma OneAnswerDecides(run: Run, m: I.ServerMessage, h: nat)
    requires Possible(run) && NeverShares(run) && Final(run).connection.Some?
    requires Discarded(Final(run), Receive(Final(run), m))
    requires h < |Final(run).connection.value.inflight.requests|
    requires WaitsFor(Final(run).connection.value.inflight.requests[h])
    requires m.responseTo == Some(Final(run).connection.value.inflight.requests[h].messageID)
    ensures var s := Final(run).connection.value.inflight;
      Settled(I.Answered(s, m)) <==> !I.Answer(m, s.requests[h].expected).Pending?
  {
    RunInv(run);
    RunUnshared(run);
    ReceiveDiscards(Final(run), m);
  }

  // ----- the late ID of a slow opening -----

  /** The opening of this socket passed the visual timeout before its initial message was sent. */
  predicate OpenedSlowly(run: Run, gen: nat) {
    run.Then? && (OpenedSlowly(run.before, gen) || FoundSlow(Final(run.before), run.step, gen))
  }

  predicate FoundSlow(v: View, step: Step, gen: nat) {
    step == OpenVisualTimer(gen) && Current(v, gen) && !v.connection.value.initializeMessageSent
  }

  /** If -1 is late afterwards, it was late before, on the same socket. */
  ghost predicate SlowBefore(v: View, w: View) {
    w.connection.Some? && -1 in w.lateResponses ==> Current(v, w.connection.value.gen) && -1 in v.lateResponses
  }

  lemma FinishClosingSlow(v: View, exclude: Option<int>)
    ensures SlowBefore(v, FinishClosing(v, exclude))
  {
  }

  lemma ReceiveSlow(v: View, m: I.ServerMessage)
    ensures SlowBefore(v, Receive(v, m))
  {
    if v.connection.Some? {
      FinishClosingSlow(WithInflight(v, I.Answered(v.connection.value.inflight, m)), m.responseTo);
    }
  }

  lemma VisualTimerSlow(v: View, h: nat)
    requires ViewNumbered(v) && v.connection.Some? && h < |v.connection.value.inflight.requests|
    ensures SlowBefore(v, AfterVisualTimer(v, h))
  {
    HeardLate(WithInflight(v, I.VisualTimerFired(v.connection.value.inflight, h).0), v.connection.value.inflight.requests[h].messageID, true);
  }

  lemma ContinuationSlow(v: View, h: nat)
    requires v.connection.Some? && h < |v.connection.value.inflight.requests|
    ensures SlowBefore(v, AfterContinuation(v, h))
  {
    var r := I.Concluded(v.connection.value.inflight, h);
    HeardLate(WithInflight(v, r.0), v.connection.value.inflight.requests[h].messageID, false);
    HeardTimedOut(WithInflight(v, r.0));
    FinishClosingSlow(WithInflight(v, r.0), None);
  }

  lemma ForceCloseSlow(v: View)
    ensures SlowBefore(v, ForceClose(v))
  {
    FinishClosingSlow(if v.status != ForcedDisconnecting && v.status != Disconnected then Dispatch(v, ForcedDisconnecting) else v, None);
  }

  /** Requests have no negative ID, so -1 appears only when an opening is found slow. */
  lemma StepFindsSlow(v: View, step: Step)
    requires ViewNumbered(v) && Enabled(v, step) && !(step.OpenVisualTimer? && FoundSlow(v, step, step.gen))
    ensures SlowBefore(v, After(v, step))
  {
    match step
    case CloseSocket(_) => FinishClosingSlow(Dispatch(v, Disconnecting), None);
    case ForceCloseSocket => ForceCloseSlow(v);
    case ChangeURL => ForceCloseSlow(v.(reopenConnectionAfterClosing := true));
    case OpenSocketTimer(_) => FinishClosingSlow(v, None);
    case ReceiveMessage(m) => ReceiveSlow(v, m);
    case VisualTimer(gen, h) => if Current(v, gen) { VisualTimerSlow(v, h); }
    case Continuation(gen, h) => if Current(v, gen) { ContinuationSlow(v, h); }
    case _ =>
  }

  lemma {:induction false} SlowOpening(run: Run)
    requires Possible(run) && Final(run).connection.Some? && -1 in Final(run).lateResponses
    ensures OpenedSlowly(run, Final(run).connection.value.gen)
  {
    RunNumbered(run.before);
    if !(run.step.OpenVisualTimer? && FoundSlow(Final(run.before), run.step, run.step.gen)) {
      StepFindsSlow(Final(run.before), run.step);
      SlowOpening(run.before);
    }
  }

  /** Under every interleaving, while a socket lives, each ID shown as late is either that of an unconcluded
      request past the visual timeout, or the -1 of this socket's own slow opening. */
  lemma LateExplained(run: Run, id: int)
    requires Possible(run) && Final(run).connection.Some? && id in Final(run).lateResponses
    ensures var connection := Final(run).connection.value;
      if id == -1 then OpenedSlowly(run, connection.gen) else Witnessed(connection.inflight, id)
  {
    RunInv(run);
    if id == -1 {
      SlowOpening(run);
    }
  }
}
