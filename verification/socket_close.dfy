/** A graceful close waits for the requests inflight and then ends. */
module SocketClose {
  import opened Collections
  import I = InflightRequests
  import opened SocketLifecycle
  import opened SocketRuns

  /** The requests a close waits for. */
  function Outstanding(s: I.State): set<nat> {
    set h | h in s.data && h < |s.requests| && !s.requests[h].expected.PONG?
  }

  ghost predicate DistinctIDs(s: I.State) {
    forall h, k :: 0 <= h < |s.requests| && 0 <= k < |s.requests| && h in s.data && k in s.data && h != k
      ==> s.requests[h].messageID != s.requests[k].messageID
  }

  /** A response to a waiting request, of a type it takes. */
  datatype Response = Response(message: I.ServerMessage, handle: nat)

  ghost predicate Answers(s: I.State, a: Response) {
    && a.handle in Outstanding(s)
    && a.message.responseTo == Some(s.requests[a.handle].messageID)
    && !I.Answer(a.message, s.requests[a.handle].expected).Pending?
  }

  /** With one inflight request per ID, a response of a type that its request takes answers all of them. */
  lemma DistinctAnswersAll(s: I.State, a: Response)
    requires I.Inv(s) && DistinctIDs(s) && Answers(s, a)
    ensures AnswersAll(s, a.message)
  {
    forall h | 0 <= h < |s.requests| && WaitsFor(s.requests[h]) && a.message.responseTo == Some(s.requests[h].messageID)
      ensures !I.Answer(a.message, s.requests[h].expected).Pending?
    {
      assert I.RequestPlaced(s, h);
    }
  }

  /** A response arrives; unless it lets the socket go, its continuation runs before anything else does. */
  function Delivered(v: View, a: Response): View
    requires v.connection.Some? && a.handle < |v.connection.value.inflight.requests|
  {
    var w := Receive(v, a.message);
    if Discarded(v, w) then w
    else if a.handle < |w.connection.value.inflight.requests| then AfterContinuation(w, a.handle)
    else w
  }

  /** A close that waits: each inflight request has its own ID and no answer yet. */
  ghost predicate WaitingClose(v: View) {
    && ViewInv(v) && Closing(v) && v.connection.Some?
    && DistinctIDs(v.connection.value.inflight)
    && (forall h :: h in v.connection.value.inflight.data && h < |v.connection.value.inflight.requests|
          ==> v.connection.value.inflight.requests[h].result.Pending?)
    && Outstanding(v.connection.value.inflight) != {}
  }

  lemma OnlyOne(s: set<nat>, h: nat)
    requires h in s
    ensures |s| == 1 <==> s == {h}
  {
    assert |s - {h}| == |s| - 1;
    assert s == {h} <==> s - {h} == {};
  }

  lemma NoOtherOutstanding(s: I.State, a: Response)
    requires Answers(s, a) && Outstanding(s) == {a.handle}
    ensures I.AllResolvedExcept(I.Answered(s, a.message), a.message.responseTo)
  {
    var t := I.Answered(s, a.message);
    forall i | 0 <= i < |t.data| && t.data[i] < |t.requests|
      ensures t.requests[t.data[i]].expected.PONG? || a.message.responseTo == Some(t.requests[t.data[i]].messageID)
    {
      assert t.data[i] in Outstanding(s) || t.requests[t.data[i]].expected.PONG?;
    }
  }

  lemma OtherOutstanding(s: I.State, a: Response, k: nat)
    requires DistinctIDs(s) && Answers(s, a) && k in Outstanding(s) && k != a.handle
    ensures !I.AllResolvedExcept(I.Answered(s, a.message), a.message.responseTo)
  {
    var t := I.Answered(s, a.message);
    var i :| 0 <= i < |s.data| && s.data[i] == k;
    assert t.data[i] == k && !t.requests[k].expected.PONG? && a.message.responseTo != Some(t.requests[k].messageID);
  }

  /** The socket goes with the response to the last outstanding request. */
  lemma LastResponseDiscards(v: View, a: Response)
    requires WaitingClose(v) && Answers(v.connection.value.inflight, a)
    ensures Discarded(v, Receive(v, a.message)) <==> |Outstanding(v.connection.value.inflight)| == 1
  {
    var s := v.connection.value.inflight;
    var t := I.Answered(s, a.message);
    OnlyOne(Outstanding(s), a.handle);
    if Outstanding(s) == {a.handle} {
      NoOtherOutstanding(s, a);
    } else {
      var k :| k in Outstanding(s) && k != a.handle;
      OtherOutstanding(s, a, k);
    }
  }

  /** What a response that does not let the socket go changes. */
  lemma DeliveredState(v: View, a: Response)
    requires WaitingClose(v) && Answers(v.connection.value.inflight, a) && !Discarded(v, Receive(v, a.message))
    ensures var t := I.Answered(v.connection.value.inflight, a.message);
      && I.Enabled(t, I.Continuation(a.handle)) && t.requests[a.handle].result != I.Rejected(I.SocketTimeout)
      && Receive(v, a.message) == WithInflight(v, t)
      && Delivered(v, a) == AfterContinuation(WithInflight(v, t), a.handle)
      && Delivered(v, a).connection == Some(v.connection.value.(inflight := I.Concluded(t, a.handle).0))
      && Delivered(v, a).status == v.status
  {
    var s, h := v.connection.value.inflight, a.handle;
    var t := I.Answered(s, a.message);
    assert I.RequestPlaced(s, h) && t.requests[h].result == I.Answer(a.message, s.requests[h].expected);
    assert Receive(v, a.message) == WithInflight(v, t);
    HeardLate(WithInflight(v, I.Concluded(t, h).0), t.requests[h].messageID, false);
  }

  /** Any earlier response leaves a close that waits for one request less. */
  lemma ResponseProgress(v: View, a: Response)
    requires WaitingClose(v) && Answers(v.connection.value.inflight, a) && |Outstanding(v.connection.value.inflight)| > 1
    ensures var w := Delivered(v, a);
      && WaitingClose(w) && w.connection.value.gen == v.connection.value.gen
      && Outstanding(w.connection.value.inflight) == Outstanding(v.connection.value.inflight) - {a.handle}
  {
    var s, h := v.connection.value.inflight, a.handle;
    var t := I.Answered(s, a.message);
    LastResponseDiscards(v, a);
    DeliveredState(v, a);
    ReceiveInv(v, a.message);
    ContinuationInv(WithInflight(v, t), h);
    OutstandingLess(s, a.message, h);
    StillWaits(s, a.message, h);
    assert |Outstanding(s) - {h}| == |Outstanding(s)| - 1;
  }

  lemma OutstandingLess(s: I.State, m: I.ServerMessage, h: nat)
    requires I.Inv(s) && h in s.data && I.Answered(s, m).requests[h].result != I.Rejected(I.SocketTimeout)
    ensures Outstanding(I.Concluded(I.Answered(s, m), h).0) == Outstanding(s) - {h}
  {
  }

  lemma StillWaits(s: I.State, m: I.ServerMessage, h: nat)
    requires I.Inv(s) && DistinctIDs(s) && h in s.data && m.responseTo == Some(s.requests[h].messageID)
    requires forall k :: k in s.data ==> s.requests[k].result.Pending?
    requires I.Answered(s, m).requests[h].result != I.Rejected(I.SocketTimeout)
    ensures var t := I.Concluded(I.Answered(s, m), h).0;
      && DistinctIDs(t)
      && forall k :: k in t.data && k < |t.requests| ==> t.requests[k].result.Pending?
  {
    var t := I.Concluded(I.Answered(s, m), h).0;
    forall k | k in t.data && k < |t.requests|
      ensures t.requests[k].result.Pending?
    {
      assert k in s.data && k != h;
    }
  }

  // ----- a series of messages -----

  /** The request that a message names is one the close waits for. */
  ghost predicate Names(s: I.State, m: I.ServerMessage, h: nat) {
    h in Outstanding(s) && m.responseTo == Some(s.requests[h].messageID)
  }

  ghost predicate NamesOutstanding(s: I.State, m: I.ServerMessage) {
    exists h: nat :: Names(s, m, h)
  }

  /** A message that names a request the close waits for has a type that the request takes.  Nothing is
      asked of pongs and of messages that the server pushes. */
  ghost predicate WellTyped(s: I.State, m: I.ServerMessage) {
    forall h: nat :: Names(s, m, h) ==> !I.Answer(m, s.requests[h].expected).Pending?
  }

  /** A listed request whose continuation is due. */
  ghost predicate Due(s: I.State, h: nat) {
    h in s.data && h < |s.requests| && !s.requests[h].result.Pending?
  }

  /** A message arrives; unless it lets the socket go, the continuation of a request it settled runs before
      anything else does. */
  ghost function Handled(v: View, m: I.ServerMessage): View
    requires v.connection.Some?
  {
    var w := Receive(v, m);
    if Discarded(v, w) || w.connection.None? then w
    else if exists h: nat :: Due(w.connection.value.inflight, h) then
      var h: nat :| Due(w.connection.value.inflight, h);
      AfterContinuation(w, h)
    else w
  }

  /** What a message settles among waiting requests with distinct IDs: at most the one it names. */
  lemma OneDue(s: I.State, m: I.ServerMessage, h: nat, k: nat)
    requires DistinctIDs(s) && forall x :: x in s.data && x < |s.requests| ==> s.requests[x].result.Pending?
    requires Due(I.Answered(s, m), h) && Due(I.Answered(s, m), k)
    ensures h == k && m.responseTo == Some(s.requests[h].messageID) && !I.Answer(m, s.requests[h].expected).Pending?
  {
  }

  /** A message that names an outstanding request of its type is handled as the response it is. */
  lemma HandledAnswer(v: View, a: Response)
    requires WaitingClose(v) && Answers(v.connection.value.inflight, a)
    ensures Handled(v, a.message) == Delivered(v, a)
  {
    var s := v.connection.value.inflight;
    if !Discarded(v, Receive(v, a.message)) {
      DeliveredState(v, a);
      var t := I.Answered(s, a.message);
      assert Due(t, a.handle);
      forall k: nat | Due(t, k)
        ensures k == a.handle
      {
        OneDue(s, a.message, a.handle, k);
      }
    }
  }

  /** A message that names no outstanding request does not let the socket go. */
  lemma NeutralStays(v: View, m: I.ServerMessage)
    requires WaitingClose(v) && !NamesOutstanding(v.connection.value.inflight, m)
    ensures Receive(v, m) == WithInflight(v, I.Answered(v.connection.value.inflight, m))
  {
    var s := v.connection.value.inflight;
    var t := I.Answered(s, m);
    var k :| k in Outstanding(s);
    var i :| 0 <= i < |s.data| && s.data[i] == k;
    assert !Names(s, m, k) && t.data[i] == k && !t.requests[k].expected.PONG? && m.responseTo != Some(t.requests[k].messageID);
  }

  lemma UnsettledWaits(v: View, m: I.ServerMessage)
    requires WaitingClose(v) && !NamesOutstanding(v.connection.value.inflight, m)
    requires forall h: nat :: !Due(I.Answered(v.connection.value.inflight, m), h)
    ensures WaitingClose(WithInflight(v, I.Answered(v.connection.value.inflight, m)))
    ensures Outstanding(I.Answered(v.connection.value.inflight, m)) == Outstanding(v.connection.value.inflight)
  {
    var t := I.Answered(v.connection.value.inflight, m);
    NeutralStays(v, m);
    ReceiveInv(v, m);
    forall h | h in t.data && h < |t.requests|
      ensures t.requests[h].result.Pending?
    {
      assert !Due(t, h);
    }
    assert Outstanding(t) == Outstanding(v.connection.value.inflight);
  }

  /** The view after a ping has been settled and concluded. */
  lemma PingConcluded(v: View, m: I.ServerMessage, h: nat)
    requires WaitingClose(v) && !NamesOutstanding(v.connection.value.inflight, m)
    requires Due(I.Answered(v.connection.value.inflight, m), h)
    ensures var s, t := v.connection.value.inflight, I.Answered(v.connection.value.inflight, m);
      && I.Enabled(t, I.Continuation(h)) && t.requests[h].result != I.Rejected(I.SocketTimeout)
      && h !in Outstanding(s) && h in s.data && m.responseTo == Some(s.requests[h].messageID)
      && AfterContinuation(WithInflight(v, t), h).connection == Some(v.connection.value.(inflight := I.Concluded(t, h).0))
      && AfterContinuation(WithInflight(v, t), h).status == v.status
  {
    var s := v.connection.value.inflight;
    var t := I.Answered(s, m);
    OneDue(s, m, h, h);
    assert !Names(s, m, h);
    HeardLate(WithInflight(v, I.Concluded(t, h).0), t.requests[h].messageID, false);
  }

  lemma PingWaits(v: View, m: I.ServerMessage, h: nat)
    requires WaitingClose(v) && !NamesOutstanding(v.connection.value.inflight, m)
    requires Due(I.Answered(v.connection.value.inflight, m), h)
    ensures var w := AfterContinuation(WithInflight(v, I.Answered(v.connection.value.inflight, m)), h);
      && WaitingClose(w) && w.connection.value.gen == v.connection.value.gen
      && Outstanding(w.connection.value.inflight) == Outstanding(v.connection.value.inflight)
  {
    var s := v.connection.value.inflight;
    var t := I.Answered(s, m);
    PingConcluded(v, m, h);
    NeutralStays(v, m);
    ReceiveInv(v, m);
    ContinuationInv(WithInflight(v, t), h);
    OutstandingLess(s, m, h);
    StillWaits(s, m, h);
    assert Outstanding(s) - {h} == Outstanding(s);
  }

  /** Any message that names no outstanding request leaves the close waiting for the same requests. */
  lemma NeutralMessage(v: View, m: I.ServerMessage)
    requires WaitingClose(v) && !NamesOutstanding(v.connection.value.inflight, m)
    ensures var w := Handled(v, m);
      && WaitingClose(w) && w.connection.value.gen == v.connection.value.gen
      && Outstanding(w.connection.value.inflight) == Outstanding(v.connection.value.inflight)
  {
    var t := I.Answered(v.connection.value.inflight, m);
    NeutralStays(v, m);
    if h: nat :| Due(t, h) {
      forall k: nat | Due(t, k)
        ensures k == h
      {
        OneDue(v.connection.value.inflight, m, h, k);
      }
      PingWaits(v, m, h);
    } else {
      UnsettledWaits(v, m);
    }
  }

  /** Each message is well-typed when it arrives. */
  ghost predicate EachWellTyped(v: View, messages: seq<I.ServerMessage>)
    decreases |messages|
  {
    |messages| > 0 ==>
      && v.connection.Some? && WellTyped(v.connection.value.inflight, messages[0])
      && (Discarded(v, Handled(v, messages[0])) || EachWellTyped(Handled(v, messages[0]), messages[1..]))
  }

  /** The view after a series of messages, or as soon as the socket is gone. */
  ghost function AfterAll(v: View, messages: seq<I.ServerMessage>): View
    requires EachWellTyped(v, messages)
    decreases |messages|
  {
    if |messages| == 0 then v
    else
      var w := Handled(v, messages[0]);
      if Discarded(v, w) then w else AfterAll(w, messages[1..])
  }

  /** How many of them answer an outstanding request, until the socket is gone. */
  ghost function Answering(v: View, messages: seq<I.ServerMessage>): nat
    requires EachWellTyped(v, messages)
    decreases |messages|
  {
    if |messages| == 0 then 0
    else
      var w, one := Handled(v, messages[0]), if NamesOutstanding(v.connection.value.inflight, messages[0]) then 1 else 0;
      one + if Discarded(v, w) then 0 else Answering(w, messages[1..])
  }

  /** Whatever else arrives, a close ends with as many answers as requests were outstanding, and not before. */
  lemma {:induction false} CloseEnds(v: View, messages: seq<I.ServerMessage>)
    requires WaitingClose(v) && EachWellTyped(v, messages)
    ensures Discarded(v, AfterAll(v, messages)) <==> Answering(v, messages) == |Outstanding(v.connection.value.inflight)|
    ensures Answering(v, messages) <= |Outstanding(v.connection.value.inflight)|
    decreases |messages|
  {
    var s := v.connection.value.inflight;
    if |messages| == 0 {
      assert |Outstanding(s)| > 0;
    } else if h: nat :| Names(s, messages[0], h) {
      var a := Response(messages[0], h);
      HandledAnswer(v, a);
      LastResponseDiscards(v, a);
      assert |Outstanding(s) - {h}| == |Outstanding(s)| - 1;
      if |Outstanding(s)| > 1 {
        ResponseProgress(v, a);
        CloseEnds(Delivered(v, a), messages[1..]);
      }
    } else {
      NeutralMessage(v, messages[0]);
      CloseEnds(Handled(v, messages[0]), messages[1..]);
    }
  }

  /** The requests of the socket after a series of messages, or as they are when it goes. */
  ghost function LeftBehind(v: View, messages: seq<I.ServerMessage>): I.State
    requires v.connection.Some? && EachWellTyped(v, messages)
    decreases |messages|
  {
    if |messages| == 0 then v.connection.value.inflight
    else
      var w := Handled(v, messages[0]);
      if Discarded(v, w) then I.Answered(v.connection.value.inflight, messages[0]) else LeftBehind(w, messages[1..])
  }

  /** A close that ends with messages leaves no request waiting but pings. */
  lemma {:induction false} CloseSettles(v: View, messages: seq<I.ServerMessage>)
    requires WaitingClose(v) && EachWellTyped(v, messages) && Discarded(v, AfterAll(v, messages))
    ensures Settled(LeftBehind(v, messages))
    decreases |messages|
  {
    var s := v.connection.value.inflight;
    if |messages| > 0 {
      if h: nat :| Names(s, messages[0], h) {
        var a := Response(messages[0], h);
        HandledAnswer(v, a);
        LastResponseDiscards(v, a);
        assert |Outstanding(s) - {h}| == |Outstanding(s)| - 1;
        if |Outstanding(s)| > 1 {
          ResponseProgress(v, a);
          CloseSettles(Delivered(v, a), messages[1..]);
        } else {
          DistinctAnswersAll(s, a);
          ReceiveDiscards(v, messages[0]);
        }
      } else {
        NeutralMessage(v, messages[0]);
        CloseSettles(Handled(v, messages[0]), messages[1..]);
      }
    }
  }

  // ----- two requests with one ID -----

  function SharedRun(): Run {
    Then(Then(Then(Start(true, true), OpenSocket(Connecting)), TransportOpened(0, true)), CloseSocket(false))
  }

  function SharedRequests(): I.State {
    I.State([0, 1], [Waiting(0, I.ACTIVITY_UPDATE_RESPONSE), Waiting(0, I.STATE_SYNC)])
  }

  lemma SharedRunEnds()
    ensures Possible(SharedRun())
    ensures Final(SharedRun()) == View(Some(Connection(0, SharedRequests(), 1, true)), 1, Disconnecting, {}, 1, false, true, true)
  {
    var v0 := View(None, 0, Connecting, {}, 0, false, true, true);
    var v1 := After(v0, OpenSocket(Connecting));
    var v2 := After(v1, TransportOpened(0, true));
    assert v2.connection.value.inflight == SharedRequests();
    assert SharedRequests().data[0] == 0 && !SharedRequests().requests[0].expected.PONG?;
    assert !I.AllResolvedExcept(SharedRequests(), None);
  }

  /** The initial message awaits a state sync and an activity response under one ID.  If the socket is
      being closed, the activity response lets it go while the state sync still waits. */
  lemma SharedIDDiscardsTooEarly()
    ensures var v := Final(SharedRun());
      var m := I.ServerMessage(I.ACTIVITY_UPDATE_RESPONSE, Some(0));
      && Possible(SharedRun()) && v.connection == Some(Connection(0, SharedRequests(), 1, true)) && Closing(v)
      && Discarded(v, Receive(v, m))
      && WaitsFor(I.Answered(SharedRequests(), m).requests[1])
  {
    SharedRunEnds();
    var m := I.ServerMessage(I.ACTIVITY_UPDATE_RESPONSE, Some(0));
    var t := I.Answered(SharedRequests(), m);
    assert forall i :: 0 <= i < |t.data| ==> t.requests[t.data[i]].messageID == 0;
    assert I.AllResolvedExcept(t, Some(0));
  }
}
