/** Whole runs of the message reducer: referential integrity, absence of thrown invariants, and the
    mirror property of the emitted operations. */
module MessageRuns {
  import opened Collections
  import opened MessageIds
  import opened MessageModel
  import opened MessageReducer
  import opened MessageIntegrity
  import opened MessageMerge

  // ----- deliveries -----

  ghost function Mine(store: Store, infos: seq<Message>, env: Env): seq<Message>
    requires ValidEnv(env) && Updated(store, env).Ok?
  {
    WatchedMessages(infos, env, env.watchedIDs + Updated(store, env).value.reassigned)
  }

  /** The delivered messages of watched threads fit the store they are merged into. */
  ghost predicate DeliveryFits(store: Store, infos: seq<Message>, env: Env)
    requires ValidEnv(env)
  {
    Updated(store, env).Ok? ==> PayloadFits(Mine(store, infos, env), Updated(store, env).value.store.messages)
  }

  ghost function Arriving(store: Store, infos: seq<Message>, statuses: map<string, Status>, env: Env): Outcome<Incoming>
    requires ValidEnv(env) && Updated(store, env).Ok?
  {
    IncomingOf(infos, statuses, Updated(store, env).value, env)
  }

  ghost predicate NoStaleCopies(store: Store, infos: seq<Message>, statuses: map<string, Status>, env: Env)
    requires ValidEnv(env)
  {
    Updated(store, env).Ok? && Arriving(store, infos, statuses, env).Ok? ==>
      forall t :: t in Updated(store, env).value.store.threads ==>
        !StaleCopy(Arriving(store, infos, statuses, env).value, Updated(store, env).value.store, t)
  }

  /** A payload that fits is adopted into an Incoming that fits. */
  lemma PayloadArrives(infos: seq<Message>, statuses: map<string, Status>, u: Reassigned, env: Env, mine: seq<Message>)
    requires mine == WatchedMessages(infos, env, env.watchedIDs + u.reassigned)
    requires WellKeyed(u.store.messages) && PayloadFits(mine, u.store.messages)
    ensures IncomingOf(infos, statuses, u, env).Ok? && IncomingFits(IncomingOf(infos, statuses, u, env).value, u.store)
  {
    var adopted := AdoptAll(mine, u.store.messages);
    IncomingOfFits(mine, u.store,
                   Incoming(SortMessageInfos(if adopted.Ok? then adopted.value else []), Rekeys(mine, u.store.messages), statuses, env.now));
  }

  lemma ArrivingFits(store: Store, infos: seq<Message>, statuses: map<string, Status>, env: Env)
    requires ValidEnv(env) && WF(store) && DeliveryFits(store, infos, env)
    ensures Updated(store, env).Ok? && WF(Updated(store, env).value.store)
    ensures Arriving(store, infos, statuses, env).Ok?
    ensures IncomingFits(Arriving(store, infos, statuses, env).value, Updated(store, env).value.store)
  {
    UpdatedKeepsWF(store, env);
    PayloadArrives(infos, statuses, Updated(store, env).value, env, Mine(store, infos, env));
  }

  /** The merged store is the delivered messages merged into the updated store. */
  lemma MergeOf(store: Store, infos: seq<Message>, statuses: map<string, Status>, env: Env)
    requires ValidEnv(env) && Updated(store, env).Ok? && Arriving(store, infos, statuses, env).Ok?
    requires MergeIncoming(Arriving(store, infos, statuses, env).value, Updated(store, env).value.store, env).Ok?
    ensures MergeNewMessages(store, infos, statuses, env).Ok?
    ensures MergeNewMessages(store, infos, statuses, env).value.0 ==
            MergeIncoming(Arriving(store, infos, statuses, env).value, Updated(store, env).value.store, env).value
  {
  }

  lemma CheckpointKeeps(r: Outcome<(Store, seq<Op>)>, action: Action, store: Store)
    requires r.Ok?
    ensures WithCheckpoint(r, action, store).Ok?
    ensures WithCheckpoint(r, action, store).value.0.messages == r.value.0.messages
    ensures WithCheckpoint(r, action, store).value.0.threads == r.value.0.threads
  {
  }

  /** A fitting delivery never throws, and leaves integrity exactly when no thread holds a stale copy. */
  lemma MergeIntegrity(store: Store, infos: seq<Message>, statuses: map<string, Status>, env: Env)
    requires ValidEnv(env) && WF(store) && DeliveryFits(store, infos, env)
    ensures MergeNewMessages(store, infos, statuses, env).Ok?
    ensures WF(MergeNewMessages(store, infos, statuses, env).value.0) <==> NoStaleCopies(store, infos, statuses, env)
  {
    ArrivingFits(store, infos, statuses, env);
    MergeIncomingIntegrity(Arriving(store, infos, statuses, env).value, Updated(store, env).value.store, env);
  }

  /** Every thread that mixes delivered and held IDs comes out in descending (time, padded ID) order of
      what the store then holds. */
  lemma MergeSorts(store: Store, infos: seq<Message>, statuses: map<string, Status>, env: Env, t: string)
    requires ValidEnv(env) && WF(store) && DeliveryFits(store, infos, env)
    requires Updated(store, env).Ok? && Arriving(store, infos, statuses, env).Ok?
    requires NeedsResort(Arriving(store, infos, statuses, env).value, Updated(store, env).value.store, t)
    ensures MergeNewMessages(store, infos, statuses, env).Ok?
    ensures var r := MergeNewMessages(store, infos, statuses, env).value.0;
      t in r.threads && SortedIDs(r.messages, r.threads[t].messageIDs)
  {
    ArrivingFits(store, infos, statuses, env);
    var inc, u := Arriving(store, infos, statuses, env).value, Updated(store, env).value.store;
    MergeIncomingResult(inc, u, env);
    ResortedThread(inc, u, Scratch(inc, u, env), t);
  }

  // ----- the other actions -----

  ghost predicate LoginFits(infos: seq<Message>) {
    && (forall m :: m in infos ==> GoodIDs(m))
    && (forall i, j :: 0 <= i < j < |infos| ==> MessageID(infos[i]) != MessageID(infos[j]))
  }

  lemma {:induction false} ReplacementsReplay(infos: seq<Message>)
    ensures Replay(map[], Replacements(infos)) == Keyed(infos)
  {
    if |infos| > 0 {
      var front, last := infos[..|infos| - 1], infos[|infos| - 1];
      ReplacementsReplay(front);
      assert Replacements(infos) == Replacements(front) + [Replace(MessageID(last), last)];
      ReplayLast(map[], Replacements(front), Replace(MessageID(last), last));
    }
  }

  /** Whatever was stored, remove_all and the replacements leave exactly the fresh store's messages. */
  lemma FreshStoreMirror(store: Store, infos: seq<Message>, statuses: map<string, Status>, currentAsOf: int, env: Env)
    requires FreshStore(infos, statuses, currentAsOf, env).Ok?
    ensures var r := FreshStore(infos, statuses, currentAsOf, env).value;
      Replay(store.messages, r.1) == r.0.messages
  {
    var ordered := SortMessageInfos(infos);
    ReplayConcat(store.messages, [RemoveAll], Replacements(ordered));
    SingleReplay(store.messages, RemoveAll);
    ReplacementsReplay(ordered);
  }

  lemma LoginKeepsWF(store: Store, infos: seq<Message>, statuses: map<string, Status>, currentAsOf: int, env: Env)
    requires ValidEnv(env) && LoginFits(infos)
    ensures var r := Reduce(store, LoginSuccess(infos, statuses, currentAsOf), env);
      r.Ok? && WF(r.value.0)
  {
    var ordered := SortMessageInfos(infos);
    FreshStoreMirror(store, infos, statuses, currentAsOf, env);
    assert UniqueIDs(infos);
    UniqueIDsPermutation(infos, ordered);
    var r := Reduce(store, LoginSuccess(infos, statuses, currentAsOf), env).value.0;
    forall t | t in r.threads
      ensures NoDup(r.threads[t].messageIDs) && Listed(r.threads[t].messageIDs, r.messages, t)
    {
      if t in GroupKeys(ordered) {
        GroupNoDup(ordered, t);
        forall id | id in Group(ordered, t)
          ensures id in r.messages && r.messages[id].threadID == t
        {
          var m :| m in ordered && m.threadID == t && MessageID(m) == id;
        }
      }
    }
  }

  /** A message the client creates: no server ID, a local ID. */
  ghost predicate LocalMessage(m: Message) {
    m.id == "" && IsLocal(m.localID)
  }

  ghost predicate SendStartedFits(store: Store, message: Message, env: Env)
    requires ValidEnv(env)
  {
    var m := EnsureRealized(message, env);
    LocalMessage(m) && (m.localID in store.messages ==> store.messages[m.localID].threadID == m.threadID)
  }

  lemma SingleReplay(messages: map<string, Message>, op: Op)
    ensures Replay(messages, [op]) == Apply(messages, op)
  {
    assert [op][..0] == [];
  }

  /** Storing one message and rewriting the list of its thread. */
  lemma StoreMessageKeepsWF(store: Store, m: Message, r: Store)
    requires WF(store) && LocalMessage(m)
    requires m.localID in store.messages ==> store.messages[m.localID].threadID == m.threadID
    requires r.messages == store.messages[m.localID := m]
    requires r.threads.Keys == store.threads.Keys + {m.threadID}
    requires forall t :: t in store.threads && t != m.threadID ==> r.threads[t] == store.threads[t]
    requires NoDup(r.threads[m.threadID].messageIDs)
    requires forall id :: id in r.threads[m.threadID].messageIDs ==> id == m.localID || id in ListOf(store, m.threadID)
    ensures WF(r)
  {
    forall t | t in r.threads
      ensures Listed(r.threads[t].messageIDs, r.messages, t)
    {
    }
  }

  lemma SendStartedKeepsWF(store: Store, m: Message, now: int)
    requires WF(store) && LocalMessage(m)
    requires m.localID in store.messages ==> store.messages[m.localID].threadID == m.threadID
    ensures StartSend(store, m, now).Ok? && WF(StartSend(store, m, now).value.0)
  {
    var ids, messages := ListOf(store, m.threadID), store.messages[m.localID := m];
    SingleReplay(store.messages, Replace(m.localID, m));
    assert m.localID != "";
    if m.localID in store.messages {
      SortMessageIDsSorts(messages, ids);
    } else {
      assert m.localID !in ids;
      NoDupConcat([m.localID], ids);
    }
    var r := StartSend(store, m, now).value.0;
    if r != store {
      StoreMessageKeepsWF(store, m, r);
    }
  }

  ghost predicate ReactionFailedFits(store: Store, localID: string, t: string) {
    t in store.threads && (localID in store.messages ==> store.messages[localID].threadID == t)
  }

  lemma ReactionFailedKeepsWF(store: Store, localID: string, t: string)
    requires WF(store) && ReactionFailedFits(store, localID, t)
    ensures ReduceReactionFailed(store, localID, t).Ok? && WF(ReduceReactionFailed(store, localID, t).value.0)
  {
    SingleReplay(store.messages, Remove([localID]));
    DifferenceNoDup(store.threads[t].messageIDs, [localID]);
  }

  ghost predicate SendSuccessFits(store: Store, localID: string, serverID: string, t: string) {
    && !IsPending(t) && IsLocal(localID) && serverID != "" && !IsLocal(serverID)
    && (serverID in store.messages || localID in store.messages ==> t in store.threads)
    && (serverID in store.messages ==> store.messages[serverID].threadID == t)
    && (localID in store.messages ==> store.messages[localID].threadID == t)
  }

  /** The acknowledged messages, operation by operation. */
  ghost function SuccessMessages(store: Store, localID: string, serverID: string, time: int): map<string, Message>
    requires serverID in store.messages || localID in store.messages
  {
    (store.messages - {localID})[serverID := SuccessMessage(store, localID, serverID, time)]
  }

  lemma SendSuccessReplay(store: Store, localID: string, serverID: string, time: int)
    requires (serverID in store.messages || localID in store.messages) && localID != serverID
    ensures Replay(store.messages,
                   [if serverID in store.messages then Remove([localID]) else Rekey(localID, serverID),
                    Replace(serverID, SuccessMessage(store, localID, serverID, time))])
         == SuccessMessages(store, localID, serverID, time)
  {
    var first := if serverID in store.messages then Remove([localID]) else Rekey(localID, serverID);
    var second := Replace(serverID, SuccessMessage(store, localID, serverID, time));
    assert [first, second] == [first] + [second];
    ReplayConcat(store.messages, [first], [second]);
    SingleReplay(store.messages, first);
    SingleReplay(Apply(store.messages, first), second);
  }

  /** The map the sort reads agrees with the stored one on the acknowledged thread's new list. */
  lemma SendSuccessScratch(store: Store, localID: string, serverID: string, t: string, time: int)
    requires WF(store) && SendSuccessFits(store, localID, serverID, t)
    requires serverID in store.messages || localID in store.messages
    ensures var ids := Uniq(ReplaceKey(store.threads[t].messageIDs, localID, serverID));
      var scratch := Acknowledged(store, localID, serverID)[serverID := SuccessMessage(store, localID, serverID, time)];
      && NoDup(ids)
      && Listed(ids, SuccessMessages(store, localID, serverID, time), t)
      && SortMessageIDs(scratch, ids) == SortMessageIDs(SuccessMessages(store, localID, serverID, time), ids)
  {
    var held := store.threads[t].messageIDs;
    var ids := Uniq(ReplaceKey(held, localID, serverID));
    var scratch := Acknowledged(store, localID, serverID)[serverID := SuccessMessage(store, localID, serverID, time)];
    var messages := SuccessMessages(store, localID, serverID, time);
    UniqNoDup(ReplaceKey(held, localID, serverID));
    forall id | id in ids
      ensures id in messages && messages[id].threadID == t && id in scratch && scratch[id] == messages[id]
    {
      assert id == serverID || (id in held && id != localID);
    }
    SortMessageIDsReads(scratch, messages, ids);
  }

  /** The acknowledged store: the thread's list is the sort of the rekeyed list by the stored messages. */
  lemma SendSuccessResult(store: Store, localID: string, serverID: string, t: string, time: int)
    requires WF(store) && SendSuccessFits(store, localID, serverID, t)
    requires serverID in store.messages || localID in store.messages
    ensures var ids := Uniq(ReplaceKey(store.threads[t].messageIDs, localID, serverID));
      var messages := SuccessMessages(store, localID, serverID, time);
      && SortMessageIDs(messages, ids).Ok?
      && ReduceSendSuccess(store, localID, serverID, t, time).Ok?
      && ReduceSendSuccess(store, localID, serverID, t, time).value.0 ==
         store.(messages := messages,
                threads := store.threads[t := store.threads[t].(messageIDs := SortMessageIDs(messages, ids).value)],
                local := store.local - {localID})
  {
    SendSuccessReplay(store, localID, serverID, time);
    SendSuccessScratch(store, localID, serverID, t, time);
  }

  /** Rewriting one thread, and no message of any other, keeps integrity. */
  lemma OneThreadKeepsWF(store: Store, r: Store, t: string)
    requires WF(store) && WellKeyed(r.messages) && t in r.threads
    requires r.threads.Keys == store.threads.Keys && forall s :: s in store.threads && s != t ==> r.threads[s] == store.threads[s]
    requires NoDup(r.threads[t].messageIDs) && Listed(r.threads[t].messageIDs, r.messages, t)
    requires forall k :: k in store.messages && store.messages[k].threadID != t ==> k in r.messages && r.messages[k] == store.messages[k]
    ensures WF(r)
  {
  }

  lemma SuccessMessagesWellKeyed(store: Store, localID: string, serverID: string, t: string, time: int)
    requires WF(store) && SendSuccessFits(store, localID, serverID, t)
    requires serverID in store.messages || localID in store.messages
    ensures var messages := SuccessMessages(store, localID, serverID, time);
      && WellKeyed(messages)
      && forall k :: k in store.messages && store.messages[k].threadID != t ==> k in messages && messages[k] == store.messages[k]
  {
  }

  lemma AckedListSorted(store: Store, localID: string, serverID: string, t: string, time: int)
    requires WF(store) && SendSuccessFits(store, localID, serverID, t)
    requires serverID in store.messages || localID in store.messages
    ensures var messages := SuccessMessages(store, localID, serverID, time);
      var r := SortMessageIDs(messages, Uniq(ReplaceKey(store.threads[t].messageIDs, localID, serverID)));
      r.Ok? && SortedIDs(messages, r.value) && NoDup(r.value) && Listed(r.value, messages, t)
  {
    SendSuccessScratch(store, localID, serverID, t, time);
    SortMessageIDsSorts(SuccessMessages(store, localID, serverID, time), Uniq(ReplaceKey(store.threads[t].messageIDs, localID, serverID)));
  }

  lemma SendSuccessKeepsWF(store: Store, localID: string, serverID: string, t: string, time: int)
    requires WF(store) && SendSuccessFits(store, localID, serverID, t)
    ensures ReduceSendSuccess(store, localID, serverID, t, time).Ok?
    ensures WF(ReduceSendSuccess(store, localID, serverID, t, time).value.0)
  {
    if serverID in store.messages || localID in store.messages {
      SendSuccessResult(store, localID, serverID, t, time);
      AckedListSorted(store, localID, serverID, t, time);
      SuccessMessagesWellKeyed(store, localID, serverID, t, time);
      OneThreadKeepsWF(store, ReduceSendSuccess(store, localID, serverID, t, time).value.0, t);
    }
  }

  /** An acknowledged message replaces its local copy under the server ID, and its thread comes out sorted
      by what the store then holds. */
  lemma SendSuccessSorts(store: Store, localID: string, serverID: string, t: string, time: int)
    requires WF(store) && SendSuccessFits(store, localID, serverID, t)
    requires serverID in store.messages || localID in store.messages
    ensures ReduceSendSuccess(store, localID, serverID, t, time).Ok?
    ensures var s := ReduceSendSuccess(store, localID, serverID, t, time).value.0;
      && t in s.threads && SortedIDs(s.messages, s.threads[t].messageIDs)
      && serverID in s.messages && localID !in s.messages
      && s.messages[serverID].localID == localID && s.messages[serverID].time == time
  {
    SendSuccessResult(store, localID, serverID, t, time);
    AckedListSorted(store, localID, serverID, t, time);
  }

  lemma {:induction false} PrunedIDsMembers(store: Store, threadIDs: seq<string>)
    ensures forall id :: id in PrunedIDs(store, threadIDs) <==>
      exists t :: t in threadIDs && t in store.threads && |store.threads[t].messageIDs| > DEFAULT_NUMBER_PER_THREAD
        && id in store.threads[t].messageIDs[DEFAULT_NUMBER_PER_THREAD..]
  {
    if |threadIDs| > 0 {
      PrunedIDsMembers(store, threadIDs[..|threadIDs| - 1]);
      assert threadIDs == threadIDs[..|threadIDs| - 1] + [threadIDs[|threadIDs| - 1]];
    }
  }

  lemma PruneKeepsWF(store: Store, threadIDs: seq<string>, now: int)
    requires WF(store)
    ensures WF(ReducePrune(store, threadIDs, now).0)
  {
    var pruned := PrunedIDs(store, threadIDs);
    SingleReplay(store.messages, Remove(pruned));
    PrunedIDsMembers(store, threadIDs);
    var r := ReducePrune(store, threadIDs, now).0;
    forall t | t in r.threads
      ensures NoDup(r.threads[t].messageIDs) && Listed(r.threads[t].messageIDs, r.messages, t)
    {
      PrefixAvoidsSuffix(store.threads[t].messageIDs, DEFAULT_NUMBER_PER_THREAD);
      forall id | id in r.threads[t].messageIDs
        ensures id in store.threads[t].messageIDs && id !in pruned
      {
        assert forall s :: s in store.threads && id in store.threads[s].messageIDs ==> s == t;
      }
    }
  }

  lemma PrefixAvoidsSuffix(ids: seq<string>, n: nat)
    requires NoDup(ids)
    ensures n <= |ids| ==> forall id :: id in ids[..n] ==> id !in ids[n..]
    ensures n <= |ids| ==> forall id :: id in ids[..n] || id in ids[n..] ==> id in ids
  {
    if n <= |ids| {
      assert ids == ids[..n] + ids[n..];
    }
  }

  /** Creating a local message keeps integrity exactly when its local ID is listed nowhere. */
  lemma CreateLocalIntegrity(store: Store, m: Message, now: int)
    requires WF(store) && LocalMessage(m)
    ensures WF(AddLocal(store, m, now).0) <==> forall t :: t in store.threads ==> m.localID !in store.threads[t].messageIDs
  {
    var r := AddLocal(store, m, now).0;
    var ids := ListOf(store, m.threadID);
    SingleReplay(store.messages, Replace(m.localID, m));
    assert r.threads[m.threadID].messageIDs == [m.localID] + ids;
    if forall t :: t in store.threads ==> m.localID !in store.threads[t].messageIDs {
      NoDupConcat([m.localID], ids);
    } else {
      var t :| t in store.threads && m.localID in store.threads[t].messageIDs;
      if t == m.threadID {
        var i :| 0 <= i < |ids| && ids[i] == m.localID;
        assert r.threads[t].messageIDs[0] == r.threads[t].messageIDs[i + 1];
      } else {
        assert r.threads[t] == store.threads[t] && r.messages[m.localID].threadID != t;
      }
    }
  }

  lemma UpdateMediaKeepsWF(store: Store, id: string, content: string)
    requires WF(store) && ReduceUpdateMedia(store, id, content).Ok?
    ensures WF(ReduceUpdateMedia(store, id, content).value.0)
  {
    SingleReplay(store.messages, Replace(id, store.messages[id].(content := content)));
  }

  /** Processing server requests only reassigns pending threads. */
  lemma ProcessServerRequestsKeepsWF(store: Store, env: Env)
    requires ValidEnv(env) && WF(store)
    ensures ReduceOther(store, ProcessServerRequests, env).Ok? && WF(ReduceOther(store, ProcessServerRequests, env).value.0)
  {
    ReassignKeepsWF(store, env);
    ReassignMirror(store, env);
  }

  // ----- payloads merged out of updates (1426-1458) -----

  ghost predicate DistinctServerIDs(infos: seq<Message>) {
    forall i, j :: 0 <= i < j < |infos| ==> infos[i].id != infos[j].id
  }

  lemma {:induction false} AddNewDistinct(infos: seq<Message>, extra: seq<Message>)
    requires DistinctServerIDs(infos)
    ensures DistinctServerIDs(AddNew(infos, extra))
    ensures forall m :: m in AddNew(infos, extra) ==> m in infos || m in extra
    ensures forall m :: m in infos ==> m in AddNew(infos, extra)
    ensures forall m :: m in extra ==> exists x :: x in AddNew(infos, extra) && x.id == m.id
  {
    if |extra| > 0 {
      var front, m := extra[..|extra| - 1], extra[|extra| - 1];
      AddNewDistinct(infos, front);
      assert extra == front + [m];
      var r, all := AddNew(infos, front), AddNew(infos, extra);
      assert forall x :: x in r ==> x in all;
      assert m in all || exists x :: x in all && x.id == m.id;
    }
  }

  /** Merging updates into a payload delivers every message once. */
  lemma {:induction false} MergeUpdatesDistinct(p: Payload, updates: seq<Update>)
    requires DistinctServerIDs(p.infos)
    ensures DistinctServerIDs(MergeUpdates(p, updates).infos)
  {
    if |updates| > 0 {
      MergeUpdatesDistinct(p, updates[..|updates| - 1]);
      match updates[|updates| - 1]
      case OtherUpdate =>
      case JoinThread(_, infos, _) => AddNewDistinct(MergeUpdates(p, updates[..|updates| - 1]).infos, infos);
    }
  }

  function Strength(s: Status): nat {
    match s case Unchanged => 0 case Truncated => 1 case Exhaustive => 2
  }

  /** The combined status of a thread is the strongest one any update or the payload gave it. */
  lemma {:induction false} MergeUpdatesStatus(p: Payload, updates: seq<Update>, t: string)
    ensures var r := MergeUpdates(p, updates).statuses;
      && (t in r <==> t in p.statuses || exists i :: 0 <= i < |updates| && updates[i].JoinThread? && updates[i].threadID == t)
      && (t in r ==>
            && (t in p.statuses ==> Strength(p.statuses[t]) <= Strength(r[t]))
            && (forall i :: 0 <= i < |updates| && updates[i].JoinThread? && updates[i].threadID == t ==> Strength(updates[i].status) <= Strength(r[t]))
            && ((t in p.statuses && p.statuses[t] == r[t])
                || exists i :: 0 <= i < |updates| && updates[i].JoinThread? && updates[i].threadID == t && updates[i].status == r[t]))
  {
    if |updates| > 0 {
      var front := updates[..|updates| - 1];
      MergeUpdatesStatus(p, front, t);
      var r := MergeUpdates(p, updates).statuses;
      assert forall i :: 0 <= i < |front| ==> front[i] == updates[i];
    }
  }

  // ----- every action, every run -----

  ghost predicate MergeFits(store: Store, infos: seq<Message>, statuses: map<string, Status>, env: Env)
    requires ValidEnv(env)
  {
    DeliveryFits(store, infos, env) && NoStaleCopies(store, infos, statuses, env)
  }

  /** What each action's sender must respect. */
  ghost predicate ActionFits(store: Store, action: Action, env: Env)
    requires ValidEnv(env)
  {
    match Delivered(action)
    case Some(p) => MergeFits(store, p.infos, p.statuses, env)
    case None =>
      match action
      case LoginSuccess(infos, _, _) => LoginFits(infos)
      case SendStarted(message) => SendStartedFits(store, message, env)
      case ReactionFailed(localID, t) => ReactionFailedFits(store, localID, t)
      case SendSuccess(localID, serverID, t, _) => SendSuccessFits(store, localID, serverID, t)
      case UpdateMedia(id, _) => id in store.messages && (store.messages[id].mtype.Images? || store.messages[id].mtype.Multimedia?)
      case CreateLocal(m) => LocalMessage(m) && forall t :: t in store.threads ==> m.localID !in store.threads[t].messageIDs
      case _ => true
  }

  /** The actions about one local message. */
  predicate IsLocalStep(action: Action) {
    action.SendStarted? || action.ReactionFailed? || action.SendSuccess? || action.CreateLocal?
  }

  lemma LocalStepIntegrity(store: Store, action: Action, env: Env)
    requires ValidEnv(env) && WF(store) && ActionFits(store, action, env) && IsLocalStep(action)
    ensures ReduceOther(store, action, env).Ok? && WF(ReduceOther(store, action, env).value.0)
  {
    match action
    case SendStarted(message) => SendStartedKeepsWF(store, EnsureRealized(message, env), env.now);
    case ReactionFailed(localID, t) => ReactionFailedKeepsWF(store, localID, t);
    case SendSuccess(localID, serverID, t, time) => SendSuccessKeepsWF(store, localID, serverID, t, time);
    case CreateLocal(m) => CreateLocalIntegrity(store, EnsureRealized(m, env), env.now);
  }

  lemma OtherStepIntegrity(store: Store, action: Action, env: Env)
    requires ValidEnv(env) && WF(store) && ActionFits(store, action, env) && Delivered(action).None?
    ensures ReduceOther(store, action, env).Ok? && WF(ReduceOther(store, action, env).value.0)
  {
    if IsLocalStep(action) {
      LocalStepIntegrity(store, action, env);
    } else {
      match action
      case LoginSuccess(infos, statuses, currentAsOf) => LoginKeepsWF(store, infos, statuses, currentAsOf, env);
      case Deauthorize => UpdatedKeepsWF(store, env);
      case Prune(threadIDs) => PruneKeepsWF(store, threadIDs, env.now);
      case UpdateMedia(id, content) => UpdateMediaKeepsWF(store, id, content);
      case ProcessServerRequests => ProcessServerRequestsKeepsWF(store, env);
      case _ =>
    }
  }

  lemma CheckpointKeepsWF(r: Outcome<(Store, seq<Op>)>, action: Action, store: Store)
    requires r.Ok? && WF(r.value.0)
    ensures WithCheckpoint(r, action, store).Ok? && WF(WithCheckpoint(r, action, store).value.0)
  {
  }

  lemma DeliveryIntegrity(store: Store, action: Action, p: Payload, env: Env)
    requires ValidEnv(env) && WF(store) && MergeFits(store, p.infos, p.statuses, env)
    ensures ReduceDelivery(store, action, p, env).Ok? && WF(ReduceDelivery(store, action, p, env).value.0)
  {
    MergeIntegrity(store, p.infos, p.statuses, env);
    CheckpointKeepsWF(MergeNewMessages(store, p.infos, p.statuses, env), action, store);
  }

  /** One fitting action: no invariant of the reducer fires and integrity is kept. */
  lemma StepIntegrity(store: Store, action: Action, env: Env)
    requires ValidEnv(env) && WF(store) && ActionFits(store, action, env)
    ensures Reduce(store, action, env).Ok? && WF(Reduce(store, action, env).value.0)
  {
    match Delivered(action)
    case Some(p) => DeliveryIntegrity(store, action, p, env);
    case None => OtherStepIntegrity(store, action, env);
  }

  /** A run of the reducer: a first store, then actions, each with the store and operations it gave. */
  datatype Run = Start(first: Store) | Then(before: Run, action: Action, env: Env, store: Store, ops: seq<Op>)

  function FirstStore(run: Run): Store {
    match run case Start(first) => first case Then(before, _, _, _, _) => FirstStore(before)
  }

  function LastStore(run: Run): Store {
    match run case Start(first) => first case Then(_, _, _, store, _) => store
  }

  function AllOps(run: Run): seq<Op> {
    match run case Start(_) => [] case Then(before, _, _, _, ops) => AllOps(before) + ops
  }

  ghost predicate Steps(store: Store, action: Action, env: Env, next: Store, ops: seq<Op>) {
    ValidEnv(env) && Reduce(store, action, env) == Ok((next, ops))
  }

  ghost predicate ValidRun(run: Run) {
    match run
    case Start(_) => true
    case Then(before, action, env, store, ops) => ValidRun(before) && Steps(LastStore(before), action, env, store, ops)
  }

  /** Every action of the run respects what `ActionFits` asks of its sender. */
  ghost predicate FittingRun(run: Run) {
    match run
    case Start(first) => WF(first)
    case Then(before, action, env, _, _) => FittingRun(before) && ValidEnv(env) && ActionFits(LastStore(before), action, env)
  }

  lemma StepsIntegrity(store: Store, action: Action, env: Env, next: Store, ops: seq<Op>)
    requires WF(store) && Steps(store, action, env, next, ops) && ActionFits(store, action, env)
    ensures WF(next)
  {
    StepIntegrity(store, action, env);
  }

  /** Referential integrity holds in every store a fitting run reaches; so, by StepIntegrity, no invariant
      of the reducer fires on any fitting action taken there. */
  lemma {:induction false} RunIntegrity(run: Run)
    requires ValidRun(run) && FittingRun(run)
    ensures WF(LastStore(run))
  {
    match run
    case Start(_) =>
    case Then(before, action, env, store, ops) =>
      RunIntegrity(before);
      StepsIntegrity(LastStore(before), action, env, store, ops);
  }

  lemma MergeMirror(store: Store, infos: seq<Message>, statuses: map<string, Status>, env: Env)
    requires ValidEnv(env) && MergeNewMessages(store, infos, statuses, env).Ok?
    ensures var r := MergeNewMessages(store, infos, statuses, env).value;
      Replay(store.messages, r.1) == r.0.messages
  {
    var u := Updated(store, env).value;
    var inc := IncomingOf(infos, statuses, u, env).value;
    ReplayConcat(store.messages, u.ops, MergeOps(inc, u.store, env));
  }

  lemma DeliveryMirror(store: Store, action: Action, p: Payload, env: Env)
    requires ValidEnv(env) && ReduceDelivery(store, action, p, env).Ok?
    ensures var r := ReduceDelivery(store, action, p, env).value;
      Replay(store.messages, r.1) == r.0.messages
  {
    MergeMirror(store, p.infos, p.statuses, env);
  }

  lemma OtherMirror(store: Store, action: Action, env: Env)
    requires ValidEnv(env) && ReduceOther(store, action, env).Ok?
    ensures var r := ReduceOther(store, action, env).value;
      Replay(store.messages, r.1) == r.0.messages
  {
  }

  /** For every store and action, replaying the emitted operations on the stored messages gives the new
      store's messages. */
  lemma StepMirror(store: Store, action: Action, env: Env)
    requires ValidEnv(env) && Reduce(store, action, env).Ok?
    ensures var r := Reduce(store, action, env).value;
      Replay(store.messages, r.1) == r.0.messages
  {
    match Delivered(action)
    case Some(p) => DeliveryMirror(store, action, p, env);
    case None => OtherMirror(store, action, env);
  }

  lemma StepsMirror(store: Store, action: Action, env: Env, next: Store, ops: seq<Op>)
    requires Steps(store, action, env, next, ops)
    ensures Replay(store.messages, ops) == next.messages
  {
    StepMirror(store, action, env);
  }

  /** The database that replays every emitted operation holds the store's messages after every run,
      whatever the actions were. */
  lemma {:induction false} RunMirror(run: Run)
    requires ValidRun(run)
    ensures Replay(FirstStore(run).messages, AllOps(run)) == LastStore(run).messages
  {
    match run
    case Start(_) =>
    case Then(before, action, env, store, ops) =>
      RunMirror(before);
      StepsMirror(LastStore(before), action, env, store, ops);
      ReplayConcat(FirstStore(run).messages, AllOps(before), ops);
  }
}
