/** A local ID belongs to one thread: kept by every action whose payload respects it, so a message of a
    pending thread is never listed, as the same message, in the thread that realizes it. */
module MessageLocals {
  import opened Collections
  import opened MessageIds
  import opened MessageModel
  import opened PendingThreads
  import opened ThreadMerge
  import opened MessageReducer
  import opened MessageIntegrity
  import opened MessageMerge
  import opened MessageRuns

  /** Two stored messages with one local ID are in one thread. */
  ghost predicate OneThread(messages: map<string, Message>) {
    forall a, b :: a in messages && b in messages && SameLocal(messages[a], messages[b]) ==> messages[a].threadID == messages[b].threadID
  }

  ghost predicate SameLocal(a: Message, b: Message) {
    a.localID != "" && a.localID == b.localID
  }

  /** The message is in the thread of every stored message with its local ID. */
  ghost predicate Placed(m: Message, stored: map<string, Message>) {
    forall k :: k in stored && SameLocal(m, stored[k]) ==> stored[k].threadID == m.threadID
  }

  ghost predicate AllPlaced(infos: seq<Message>, stored: map<string, Message>) {
    && (forall m :: m in infos ==> Placed(m, stored))
    && forall m, n :: m in infos && n in infos && SameLocal(m, n) ==> m.threadID == n.threadID
  }

  // ----- what each action's payload promises -----

  ghost predicate LocalsFit(store: Store, action: Action, env: Env)
    requires ValidEnv(env)
  {
    match Delivered(action)
    case Some(p) => Updated(store, env).Ok? ==> AllPlaced(Mine(store, p.infos, env), Updated(store, env).value.store.messages)
    case None =>
      match action
      case LoginSuccess(infos, _, _) => AllPlaced(infos, map[])
      case SendStarted(message) => Placed(EnsureRealized(message, env), store.messages)
      case CreateLocal(message) => Placed(EnsureRealized(message, env), store.messages)
      case SendSuccess(localID, _, t, _) =>
        forall k :: k in store.messages && localID != "" && store.messages[k].localID == localID ==> store.messages[k].threadID == t
      case _ => true
  }

  // ----- storing, dropping and moving messages -----

  lemma FewerOneThread(messages: map<string, Message>, fewer: map<string, Message>)
    requires OneThread(messages) && forall k :: k in fewer ==> k in messages && fewer[k] == messages[k]
    ensures OneThread(fewer)
  {
  }

  lemma StoredOneThread(messages: map<string, Message>, k: string, m: Message)
    requires OneThread(messages) && Placed(m, messages)
    ensures OneThread(messages[k := m])
  {
  }

  lemma ReassignedOneThread(messages: map<string, Message>, p2r: map<string, string>, infos: map<string, RawThread>)
    requires OneThread(messages)
    ensures OneThread(ReassignedMessages(messages, p2r, infos))
  {
    var r := ReassignedMessages(messages, p2r, infos);
    forall a, b | a in r && b in r && SameLocal(r[a], r[b])
      ensures r[a].threadID == r[b].threadID
    {
      assert SameLocal(messages[a], messages[b]);
    }
  }

  lemma ReassignOneThread(store: Store, env: Env)
    requires ValidEnv(env) && Reassign(store, env).Ok? && OneThread(store.messages)
    ensures OneThread(Reassign(store, env).value.store.messages)
  {
    ReassignedOneThread(store.messages, P2R(env), env.threadInfos);
  }

  lemma UpdatedOneThread(store: Store, env: Env)
    requires ValidEnv(env) && WF(store) && OneThread(store.messages)
    ensures Updated(store, env).Ok? && OneThread(Updated(store, env).value.store.messages)
  {
    UpdatedKeepsWF(store, env);
    ReassignOneThread(store, env);
    UpdatedFewer(store, env);
    FewerOneThread(Reassign(store, env).value.store.messages, Updated(store, env).value.store.messages);
  }

  // ----- delivered messages -----

  lemma {:induction false} AdoptAllEach(mine: seq<Message>, stored: map<string, Message>, i: nat)
    requires AdoptAll(mine, stored).Ok? && i < |mine|
    ensures |AdoptAll(mine, stored).value| == |mine| && Adopt(mine[i], stored) == Ok(AdoptAll(mine, stored).value[i])
  {
    if |mine| > 1 {
      AdoptAllEach(mine[..|mine| - 1], stored, if i < |mine| - 1 then i else 0);
    } else {
      assert AdoptAll(mine[..0], stored) == Ok([]);
    }
  }

  ghost predicate LocalStored(m: Message, stored: map<string, Message>) {
    exists k :: k in stored && SameLocal(m, stored[k])
  }

  /** Adopting a message keeps it in the thread of its local ID; a local ID it did not have is a stored one. */
  lemma AdoptPlaced(m: Message, stored: map<string, Message>)
    requires WellKeyed(stored) && OneThread(stored) && MessageFits(m, stored) && Placed(m, stored)
    ensures Adopt(m, stored).Ok? && Adopt(m, stored).value.threadID == m.threadID
    ensures var a := Adopt(m, stored).value;
      && Placed(a, stored)
      && (a.localID == "" || a.localID == m.localID || LocalStored(a, stored))
  {
    AdoptFacts(m, stored);
    var a := Adopt(m, stored).value;
    if a.localID != "" && a.localID != m.localID {
      var k := if m.id in stored && a.localID == stored[m.id].localID then m.id else m.localID;
      assert k in stored && SameLocal(a, stored[k]) && stored[k].threadID == m.threadID;
      forall x | x in stored && SameLocal(a, stored[x])
        ensures stored[x].threadID == a.threadID
      {
        assert SameLocal(stored[k], stored[x]);
      }
    }
  }

  /** Two adopted messages with one local ID are in one thread. */
  lemma AdoptedTogether(m: Message, n: Message, stored: map<string, Message>)
    requires WellKeyed(stored) && OneThread(stored) && MessageFits(m, stored) && MessageFits(n, stored)
    requires Placed(m, stored) && Placed(n, stored) && (SameLocal(m, n) ==> m.threadID == n.threadID)
    ensures Adopt(m, stored).Ok? && Adopt(n, stored).Ok?
    ensures SameLocal(Adopt(m, stored).value, Adopt(n, stored).value) ==> Adopt(m, stored).value.threadID == Adopt(n, stored).value.threadID
  {
    AdoptPlaced(m, stored);
    AdoptPlaced(n, stored);
    var a, b := Adopt(m, stored).value, Adopt(n, stored).value;
    if SameLocal(a, b) {
      if LocalStored(a, stored) {
        var k :| k in stored && SameLocal(a, stored[k]);
        assert SameLocal(b, stored[k]);
      }
    }
  }

  lemma ArrivedPlaced(mine: seq<Message>, stored: map<string, Message>, arrived: seq<Message>)
    requires WellKeyed(stored) && OneThread(stored) && PayloadFits(mine, stored) && AllPlaced(mine, stored)
    requires AdoptAll(mine, stored).Ok? && forall m :: m in arrived ==> m in AdoptAll(mine, stored).value
    ensures AllPlaced(arrived, stored)
  {
    var r := AdoptAll(mine, stored).value;
    forall a | a in arrived
      ensures exists m :: m in mine && Adopt(m, stored) == Ok(a)
    {
      AdoptAllFacts(mine, stored);
      var i :| 0 <= i < |r| && r[i] == a;
      AdoptAllEach(mine, stored, i);
      assert mine[i] in mine;
    }
    forall a | a in arrived
      ensures Placed(a, stored)
    {
      var m :| m in mine && Adopt(m, stored) == Ok(a);
      AdoptPlaced(m, stored);
    }
    forall a, b | a in arrived && b in arrived && SameLocal(a, b)
      ensures a.threadID == b.threadID
    {
      var m :| m in mine && Adopt(m, stored) == Ok(a);
      var n :| n in mine && Adopt(n, stored) == Ok(b);
      AdoptedTogether(m, n, stored);
    }
  }

  lemma MergedOneThread(inc: Incoming, u: Store)
    requires OneThread(u.messages) && AllPlaced(inc.arrived, u.messages)
    ensures OneThread(MergedMessages(inc, u))
  {
    var r := MergedMessages(inc, u);
    forall k | k in r
      ensures (k in u.messages && r[k] == u.messages[k]) || r[k] in inc.arrived
    {
    }
  }

  lemma DeliveryOneThread(store: Store, action: Action, p: Payload, env: Env)
    requires ValidEnv(env) && WF(store) && OneThread(store.messages) && MergeFits(store, p.infos, p.statuses, env)
    requires Updated(store, env).Ok? ==> AllPlaced(Mine(store, p.infos, env), Updated(store, env).value.store.messages)
    ensures ReduceDelivery(store, action, p, env).Ok? && OneThread(ReduceDelivery(store, action, p, env).value.0.messages)
  {
    ArrivingFits(store, p.infos, p.statuses, env);
    UpdatedOneThread(store, env);
    var u, inc := Updated(store, env).value.store, Arriving(store, p.infos, p.statuses, env).value;
    ArrivedPlaced(Mine(store, p.infos, env), u.messages, inc.arrived);
    MergedOneThread(inc, u);
    MergeIncomingResult(inc, u, env);
    MergeOf(store, p.infos, p.statuses, env);
    CheckpointKeeps(MergeNewMessages(store, p.infos, p.statuses, env), action, store);
  }

  // ----- the other actions -----

  lemma {:induction false} KeyedMembers(infos: seq<Message>)
    ensures forall k :: k in Keyed(infos) ==> Keyed(infos)[k] in infos
  {
    if |infos| > 0 {
      KeyedMembers(infos[..|infos| - 1]);
      assert infos == infos[..|infos| - 1] + [infos[|infos| - 1]];
    }
  }

  lemma LoginOneThread(store: Store, infos: seq<Message>, statuses: map<string, Status>, currentAsOf: int, env: Env)
    requires ValidEnv(env) && AllPlaced(infos, map[]) && FreshStore(infos, statuses, currentAsOf, env).Ok?
    ensures var r := Reduce(store, LoginSuccess(infos, statuses, currentAsOf), env);
      r.Ok? && OneThread(r.value.0.messages)
  {
    FreshStoreMirror(store, infos, statuses, currentAsOf, env);
    KeyedMembers(SortMessageInfos(infos));
  }

  lemma SuccessThread(store: Store, localID: string, serverID: string, t: string, time: int)
    requires WF(store) && SendSuccessFits(store, localID, serverID, t) && (serverID in store.messages || localID in store.messages)
    ensures var m := SuccessMessage(store, localID, serverID, time); m.threadID == t && m.localID == localID
  {
  }

  lemma SendSuccessOneThread(store: Store, localID: string, serverID: string, t: string, time: int)
    requires WF(store) && SendSuccessFits(store, localID, serverID, t) && OneThread(store.messages)
    requires forall k :: k in store.messages && localID != "" && store.messages[k].localID == localID ==> store.messages[k].threadID == t
    ensures ReduceSendSuccess(store, localID, serverID, t, time).Ok?
    ensures OneThread(ReduceSendSuccess(store, localID, serverID, t, time).value.0.messages)
  {
    if serverID in store.messages || localID in store.messages {
      SendSuccessResult(store, localID, serverID, t, time);
      FewerOneThread(store.messages, store.messages - {localID});
      SuccessThread(store, localID, serverID, t, time);
      StoredOneThread(store.messages - {localID}, serverID, SuccessMessage(store, localID, serverID, time));
    }
  }

  lemma StartSendOneThread(store: Store, m: Message, now: int)
    requires OneThread(store.messages) && Placed(m, store.messages) && StartSend(store, m, now).Ok?
    ensures OneThread(StartSend(store, m, now).value.0.messages)
  {
    SingleReplay(store.messages, Replace(m.localID, m));
    StoredOneThread(store.messages, m.localID, m);
  }

  lemma AddLocalOneThread(store: Store, m: Message, now: int)
    requires OneThread(store.messages) && Placed(m, store.messages)
    ensures OneThread(AddLocal(store, m, now).0.messages)
  {
    SingleReplay(store.messages, Replace(m.localID, m));
    StoredOneThread(store.messages, m.localID, m);
  }

  lemma UpdateMediaOneThread(store: Store, id: string, content: string)
    requires OneThread(store.messages) && ReduceUpdateMedia(store, id, content).Ok?
    ensures OneThread(ReduceUpdateMedia(store, id, content).value.0.messages)
  {
    var m := store.messages[id].(content := content);
    SingleReplay(store.messages, Replace(id, m));
    forall k | k in store.messages && SameLocal(m, store.messages[k])
      ensures store.messages[k].threadID == m.threadID
    {
      assert SameLocal(store.messages[id], store.messages[k]);
    }
    StoredOneThread(store.messages, id, m);
  }

  lemma RemovedOneThread(store: Store, ids: seq<string>)
    requires OneThread(store.messages)
    ensures OneThread(Replay(store.messages, [Remove(ids)]))
  {
    SingleReplay(store.messages, Remove(ids));
    FewerOneThread(store.messages, Apply(store.messages, Remove(ids)));
  }

  lemma LocalStepOneThread(store: Store, action: Action, env: Env)
    requires ValidEnv(env) && WF(store) && OneThread(store.messages) && IsLocalStep(action)
    requires ActionFits(store, action, env) && LocalsFit(store, action, env) && ReduceOther(store, action, env).Ok?
    ensures OneThread(ReduceOther(store, action, env).value.0.messages)
  {
    match action
    case SendStarted(message) => StartSendOneThread(store, EnsureRealized(message, env), env.now);
    case ReactionFailed(localID, t) => RemovedOneThread(store, [localID]);
    case SendSuccess(localID, serverID, t, time) => SendSuccessOneThread(store, localID, serverID, t, time);
    case CreateLocal(m) => AddLocalOneThread(store, EnsureRealized(m, env), env.now);
  }

  lemma OtherStepOneThread(store: Store, action: Action, env: Env)
    requires ValidEnv(env) && WF(store) && OneThread(store.messages)
    requires ActionFits(store, action, env) && LocalsFit(store, action, env) && Delivered(action).None? && ReduceOther(store, action, env).Ok?
    ensures OneThread(ReduceOther(store, action, env).value.0.messages)
  {
    if IsLocalStep(action) {
      LocalStepOneThread(store, action, env);
    } else {
      match action
      case LoginSuccess(infos, statuses, currentAsOf) => LoginOneThread(store, infos, statuses, currentAsOf, env);
      case Deauthorize => UpdatedOneThread(store, env);
      case Prune(threadIDs) => RemovedOneThread(store, PrunedIDs(store, threadIDs));
      case UpdateMedia(id, content) => UpdateMediaOneThread(store, id, content);
      case ProcessServerRequests =>
        ReassignMirror(store, env);
        ReassignOneThread(store, env);
      case _ =>
    }
  }

  /** One action whose payload respects it leaves every local ID in one thread. */
  lemma StepOneThread(store: Store, action: Action, env: Env)
    requires ValidEnv(env) && WF(store) && OneThread(store.messages)
    requires ActionFits(store, action, env) && LocalsFit(store, action, env)
    ensures Reduce(store, action, env).Ok? && OneThread(Reduce(store, action, env).value.0.messages)
  {
    StepIntegrity(store, action, env);
    match Delivered(action)
    case Some(p) => DeliveryOneThread(store, action, p, env);
    case None => OtherStepOneThread(store, action, env);
  }

  /** Where a pending list has local messages only, it shares no message with a realized list. */
  lemma PendingUnrelated(store: Store, t: string, n: string, x: string, y: string)
    requires WF(store) && OneThread(store.messages) && t in store.threads && n in store.threads && t != n
    requires x in store.threads[t].messageIDs && y in store.threads[n].messageIDs && IsLocal(x)
    ensures x != y && !SameMessage(store.messages[x], store.messages[y])
  {
    assert store.messages[x].threadID == t && store.messages[y].threadID == n;
    assert MessageID(store.messages[x]) == x && store.messages[x].id == "";
    assert !SameLocal(store.messages[x], store.messages[y]);
  }
}
