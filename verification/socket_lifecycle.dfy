/** Opening and closing the socket, the requests inflight on it and the late-response indicator
    (lib/socket/socket.react.js, lib/reducers/connection-reducer.js). */
module SocketLifecycle {
  import opened Collections
  import I = InflightRequests

  datatype Status = Connecting | Connected | Reconnecting | Disconnecting | ForcedDisconnecting | Disconnected

  /** A socket with the InflightRequests created for it; `gen` tells sockets apart. */
  datatype Connection = Connection(gen: nat, inflight: I.State, readyState: nat, initializeMessageSent: bool)

  /** The component's fields and the connection part of the Redux store.  `usable` is false when frozen or
      without a user cookie. */
  datatype View = View(
    connection: Option<Connection>,
    gens: nat,
    status: Status,
    lateResponses: set<int>,
    nextClientMessageID: nat,
    reopenConnectionAfterClosing: bool,
    active: bool,
    usable: bool)

  // ----- specification of each operation -----

  /** `updateConnectionStatusActionType` forgets which responses are late. */
  function Dispatch(v: View, status: Status): View {
    v.(status := status, lateResponses := {})
  }

  function Fresh(v: View, newStatus: Status): View {
    Dispatch(v, newStatus).(connection := Some(Connection(v.gens, I.State([], []), 0, false)), gens := v.gens + 1)
  }

  function Open(v: View, newStatus: Status): View {
    if !v.usable then v
    else if v.connection.None? then Fresh(v, newStatus)
    else match v.status
      case ForcedDisconnecting => v.(reopenConnectionAfterClosing := true)
      case Disconnecting => if v.connection.value.readyState == 1 then Dispatch(v, Connected) else Fresh(v, newStatus)
      case Disconnected => Fresh(v, newStatus)
      case _ => v
  }

  function FinishClosing(v: View, exclude: Option<int>): View {
    if v.connection.Some? && !I.AllResolvedExcept(v.connection.value.inflight, exclude) then v
    else
      var gone := v.(connection := None);
      var told := if v.status != Disconnected then Dispatch(gone, Disconnected) else gone;
      if !told.reopenConnectionAfterClosing then told
      else if told.active then Open(told.(reopenConnectionAfterClosing := false), Connecting)
      else told.(reopenConnectionAfterClosing := false)
  }

  function Close(v: View, activityUpdatePending: bool): View {
    match v.status
    case Disconnected => v
    case Disconnecting => v.(reopenConnectionAfterClosing := false)
    case ForcedDisconnecting => v.(reopenConnectionAfterClosing := false)
    case _ =>
      var closing := Dispatch(v, Disconnecting);
      if activityUpdatePending then closing else FinishClosing(closing, None)
  }

  function ForceClose(v: View): View {
    FinishClosing(if v.status != ForcedDisconnecting && v.status != Disconnected then Dispatch(v, ForcedDisconnecting) else v, None)
  }

  predicate Closing(v: View) {
    v.status == Disconnecting || v.status == ForcedDisconnecting
  }

  function WithInflight(v: View, s: I.State): View
    requires v.connection.Some?
  {
    v.(connection := Some(v.connection.value.(inflight := s)))
  }

  function Receive(v: View, m: I.ServerMessage): View {
    if v.connection.None? then v
    else
      var resolved := WithInflight(v, I.Answered(v.connection.value.inflight, m));
      if Closing(v) then FinishClosing(resolved, m.responseTo) else resolved
  }

  function Closed(v: View): View {
    var gone := v.(connection := None);
    if v.status != Disconnected then Dispatch(gone, Disconnected) else gone
  }

  function Sent(v: View, expected: I.MessageType): View
    requires v.connection.Some?
  {
    WithInflight(v, I.Fetched(v.connection.value.inflight, v.nextClientMessageID, expected))
      .(nextClientMessageID := v.nextClientMessageID + 1)
  }

  /** `sendInitialMessage`: one message, for which up to two responses are awaited. */
  function SentInitial(v: View, withActivityUpdates: bool): View
    requires v.connection.Some?
  {
    var s, id := v.connection.value.inflight, v.nextClientMessageID;
    var first := if withActivityUpdates then I.Fetched(s, id, I.ACTIVITY_UPDATE_RESPONSE) else s;
    WithInflight(v, I.Fetched(first, id, I.STATE_SYNC)).(nextClientMessageID := id + 1)
  }

  /** The callbacks given to the current socket's InflightRequests. */
  function Heard(v: View, effects: seq<I.Effect>): View
    decreases |effects|
  {
    if |effects| == 0 then v
    else
      var w := match effects[0]
        case SetLateResponse(id, isLate) => v.(lateResponses := if isLate then v.lateResponses + {id} else v.lateResponses - {id})
        case TimedOut => FinishClosing(v, None);
      Heard(w, effects[1..])
  }

  // ----- the component -----

  datatype Transport = Transport(gen: nat, readyState: nat, initializeMessageSent: bool)

  class Socket {
    var socket: Option<Transport>
    var inflightRequests: I.Inflight?
    var gens: nat
    var status: Status
    var lateResponses: set<int>
    var nextClientMessageID: nat
    var reopenConnectionAfterClosing: bool
    var active: bool
    var usable: bool

    ghost predicate Valid()
      reads this, inflightRequests
    {
      (socket.Some? <==> inflightRequests != null) && (inflightRequests != null ==> I.Held(inflightRequests.Now()))
    }

    ghost function Now(): View
      requires Valid()
      reads this, inflightRequests
    {
      var connection :=
        if socket.None? then None
        else Some(Connection(socket.value.gen, inflightRequests.Now(), socket.value.readyState, socket.value.initializeMessageSent));
      View(connection, gens, status, lateResponses, nextClientMessageID, reopenConnectionAfterClosing, active, usable)
    }

    method UpdateStatus(newStatus: Status)
      requires Valid()
      modifies this`status, this`lateResponses
      ensures Valid() && Now() == Dispatch(old(Now()), newStatus)
    {
      status, lateResponses := newStatus, {};
    }

    /** `openSocket` */
    method OpenSocket(newStatus: Status)
      requires Valid()
      modifies this
      ensures Valid() && Now() == Open(old(Now()), newStatus)
      ensures inflightRequests == old(inflightRequests) || fresh(inflightRequests)
    {
      if !usable {
        return;
      }
      if socket.Some? {
        if status == ForcedDisconnecting {
          reopenConnectionAfterClosing := true;
          return;
        } else if status == Disconnecting && socket.value.readyState == 1 {
          UpdateStatus(Connected);
          return;
        } else if status == Connected || status == Connecting || status == Reconnecting {
          return;
        }
      }
      UpdateStatus(newStatus);
      inflightRequests := new I.Inflight();
      socket := Some(Transport(gens, 0, false));
      gens := gens + 1;
    }

    /** `finishClosingSocket` */
    method FinishClosingSocket(receivedResponseTo: Option<int>)
      requires Valid()
      modifies this
      ensures Valid() && Now() == FinishClosing(old(Now()), receivedResponseTo)
      ensures inflightRequests == null || inflightRequests == old(inflightRequests) || fresh(inflightRequests)
    {
      if inflightRequests != null {
        var allResolved := inflightRequests.AllRequestsResolvedExcept(receivedResponseTo);
        if !allResolved {
          return;
        }
      }
      socket := None;
      inflightRequests := null;
      if status != Disconnected {
        UpdateStatus(Disconnected);
      }
      if reopenConnectionAfterClosing {
        reopenConnectionAfterClosing := false;
        if active {
          OpenSocket(Connecting);
        }
      }
    }

    /** `closeSocket` */
    method CloseSocket(activityUpdatePending: bool)
      requires Valid()
      modifies this
      ensures Valid() && Now() == Close(old(Now()), activityUpdatePending)
    {
      if status == Disconnected {
        return;
      } else if status == Disconnecting || status == ForcedDisconnecting {
        reopenConnectionAfterClosing := false;
        return;
      }
      UpdateStatus(Disconnecting);
      if !activityUpdatePending {
        FinishClosingSocket(None);
      }
    }

    /** `forceCloseSocket` */
    method ForceCloseSocket()
      requires Valid()
      modifies this
      ensures Valid() && Now() == ForceClose(old(Now()))
    {
      if status != ForcedDisconnecting && status != Disconnected {
        UpdateStatus(ForcedDisconnecting);
      }
      FinishClosingSocket(None);
    }

    /** The part of `receiveMessage` that resolves requests. */
    method ReceiveMessage(m: I.ServerMessage)
      requires Valid()
      modifies this, inflightRequests
      ensures Valid() && Now() == Receive(old(Now()), m)
    {
      if inflightRequests == null {
        return;
      }
      inflightRequests.ResolveRequestsForMessage(m);
      if status == Disconnecting || status == ForcedDisconnecting {
        FinishClosingSocket(m.responseTo);
      }
    }

    /** `onClose` */
    method OnClose()
      requires Valid()
      modifies this, inflightRequests
      ensures Valid() && Now() == Closed(old(Now()))
      ensures old(inflightRequests) != null ==>
        old(inflightRequests).Now() == I.AllRejected(old(inflightRequests.Now()), I.SocketClosed)
    {
      socket := None;
      if inflightRequests != null {
        inflightRequests.RejectAll(I.SocketClosed);
        inflightRequests := null;
      }
      if status != Disconnected {
        UpdateStatus(Disconnected);
      }
    }

    /** `setLateResponse` of the component and the reducer behind it. */
    method SetLateResponse(messageID: int, isLate: bool)
      requires Valid()
      modifies this`lateResponses
      ensures Valid() && Now() == Heard(old(Now()), [I.SetLateResponse(messageID, isLate)])
    {
      lateResponses := if isLate then lateResponses + {messageID} else lateResponses - {messageID};
      assert Heard(Now(), []) == Now();
    }
  }
}
