/** What the message reducer computes (lib/reducers/message-reducer.js), as functions on values.  The
    loops themselves are in MessageReducerLoops, proved against these functions. */
module MessageReducer {
  import opened Collections
  import opened MessageModel
  import opened PendingThreads
  import opened ThreadMerge

  /** What a step reads besides the store and the action.  `keys` is the order in which `for (key in
      object)` visits a set of keys; nothing is assumed of it but that it lists each key once. */
  datatype Env = Env(
    threadInfos: map<string, RawThread>,
    watchedIDs: seq<string>,
    now: int,
    keys: set<string> -> seq<string>)

  ghost predicate ValidEnv(env: Env) {
    && (forall s: set<string> {:trigger Enumerates(env.keys(s), s)} :: Enumerates(env.keys(s), s))
    && forall t :: t in env.threadInfos ==> env.threadInfos[t].id == t
  }

  predicate IsThreadWatched(threadID: string, info: Option<RawThread>, watchedIDs: seq<string>) {
    IsPending(threadID) || (info.Some? && info.value.visible && (info.value.viewerRole || threadID in watchedIDs))
  }

  function InfoOf(infos: map<string, RawThread>, t: string): Option<RawThread> {
    if t in infos then Some(infos[t]) else None
  }

  function EmptyThread(now: int): ThreadMessages {
    ThreadMessages([], false, 0, now)
  }

  // ----- grouping (103-116) -----

  /** IDs of the messages of one thread, in order. */
  function Group(infos: seq<Message>, t: string): (r: seq<string>)
    ensures forall id :: id in r <==> exists m :: m in infos && m.threadID == t && MessageID(m) == id
  {
    if |infos| == 0 then []
    else
      var front, last := Group(infos[..|infos| - 1], t), infos[|infos| - 1];
      assert infos == infos[..|infos| - 1] + [last];
      if last.threadID == t then front + [MessageID(last)] else front
  }

  function GroupKeys(infos: seq<Message>): set<string> {
    set m | m in infos :: m.threadID
  }

  function Groups(infos: seq<Message>): map<string, seq<string>> {
    map t | t in GroupKeys(infos) :: Group(infos, t)
  }

  // ----- freshMessageStore (142-189) -----

  function Replacements(infos: seq<Message>): seq<Op> {
    seq(|infos|, i requires 0 <= i < |infos| => Replace(MessageID(infos[i]), infos[i]))
  }

  function FreshThreads(ordered: seq<Message>, statuses: map<string, Status>, env: Env): map<string, ThreadMessages> {
    var groups := Groups(ordered);
    map t | t in groups.Keys + env.threadInfos.Keys
          && (t in groups || IsThreadWatched(t, InfoOf(env.threadInfos, t), env.watchedIDs))
      :: if t in groups
         then ThreadMessages(groups[t], t in statuses && statuses[t] == Exhaustive, 0, env.now)
         else EmptyThread(env.now)
  }

  predicate AllHaveID(infos: seq<Message>) {
    forall m :: m in infos ==> MessageID(m) != ""
  }

  function FreshStore(infos: seq<Message>, statuses: map<string, Status>, currentAsOf: int, env: Env): Outcome<(Store, seq<Op>)> {
    if !AllHaveID(infos) then Throw
    else
      var ordered := SortMessageInfos(infos);
      Ok((Store(Keyed(ordered), FreshThreads(ordered, statuses, env), map[], currentAsOf),
          [RemoveAll] + Replacements(ordered)))
  }

  // ----- reassignMessagesToRealizedThreads (197-262) -----

  function RealizedID(p2r: map<string, string>, t: string): string {
    if t in p2r then p2r[t] else ""
  }

  function ReassignedMessage(m: Message, p2r: map<string, string>, infos: map<string, RawThread>): Message {
    var n := RealizedID(p2r, m.threadID);
    if n == "" then m
    else m.(threadID := n, time := if n in infos then infos[n].creationTime else m.time)
  }

  function ReassignedMessages(messages: map<string, Message>, p2r: map<string, string>, infos: map<string, RawThread>): map<string, Message> {
    map k | k in messages :: ReassignedMessage(messages[k], p2r, infos)
  }

  function ReassignOps(messages: map<string, Message>, p2r: map<string, string>, infos: map<string, RawThread>, order: seq<string>): seq<Op>
    requires forall k :: k in order ==> k in messages
  {
    if |order| == 0 then []
    else
      var front, k := ReassignOps(messages, p2r, infos, order[..|order| - 1]), order[|order| - 1];
      if RealizedID(p2r, messages[k].threadID) == "" then front
      else front + [Replace(k, ReassignedMessage(messages[k], p2r, infos))]
  }

  datatype Threads = Threads(threads: map<string, ThreadMessages>, reassigned: seq<string>)

  /** The thread loop, in the order the keys are visited. */
  function ReassignThreads(threads: map<string, ThreadMessages>, p2r: map<string, string>, messages: map<string, Message>, order: seq<string>): Outcome<Threads>
    requires forall t :: t in order ==> t in threads
  {
    if |order| == 0 then Ok(Threads(map[], []))
    else
      var acc :- ReassignThreads(threads, p2r, messages, order[..|order| - 1]);
      var t := order[|order| - 1];
      var n := RealizedID(p2r, t);
      if n == "" then Ok(acc.(threads := acc.threads[t := threads[t]]))
      else if n !in threads then Ok(Threads(acc.threads[n := threads[t]], acc.reassigned + [n]))
      else
        var merged :- MergeThreads(threads[t], threads[n], messages);
        Ok(acc.(threads := acc.threads[n := merged]))
  }

  function P2R(env: Env): map<string, string>
    requires ValidEnv(env)
  {
    assert Enumerates(env.keys(env.threadInfos.Keys), env.threadInfos.Keys);
    PendingToRealized(env.threadInfos, env.keys(env.threadInfos.Keys))
  }

  datatype Reassigned = Reassigned(store: Store, ops: seq<Op>, reassigned: seq<string>)

  function Reassign(store: Store, env: Env): Outcome<Reassigned>
    requires ValidEnv(env)
  {
    var p2r := P2R(env);
    var messages := ReassignedMessages(store.messages, p2r, env.threadInfos);
    assert Enumerates(env.keys(store.messages.Keys), store.messages.Keys);
    assert Enumerates(env.keys(store.threads.Keys), store.threads.Keys);
    var ops := ReassignOps(store.messages, p2r, env.threadInfos, env.keys(store.messages.Keys));
    var r :- ReassignThreads(store.threads, p2r, messages, env.keys(store.threads.Keys));
    Ok(Reassigned(store.(threads := r.threads, messages := messages), ops, r.reassigned))
  }

  // ----- updateMessageStoreWithLatestThreadInfos (576-633) -----

  function WatchedInfos(env: Env, watchedIDs: seq<string>): set<string> {
    set t | t in env.threadInfos && IsThreadWatched(env.threadInfos[t].id, Some(env.threadInfos[t]), watchedIDs)
  }

  function Unwatched(order: seq<string>, watched: set<string>): (r: seq<string>)
    ensures forall t :: t in r <==> t in order && t !in watched
  {
    if |order| == 0 then []
    else
      var front, t := Unwatched(order[..|order| - 1], watched), order[|order| - 1];
      assert order == order[..|order| - 1] + [t];
      if t in watched then front else front + [t]
  }

  function ListedIn(threads: map<string, ThreadMessages>, ts: seq<string>): set<string>
    requires forall t :: t in ts ==> t in threads
  {
    set t, id | t in ts && id in threads[t].messageIDs :: id
  }

  function KeptThreads(threads: map<string, ThreadMessages>, watched: set<string>, env: Env, watchedIDs: seq<string>): map<string, ThreadMessages> {
    map t | t in threads.Keys + env.threadInfos.Keys
          && ((t in watched && t in threads)
              || (t in env.threadInfos && IsThreadWatched(t, InfoOf(env.threadInfos, t), watchedIDs)))
      :: if t in watched && t in threads then threads[t] else EmptyThread(env.now)
  }

  function UpdateWithLatest(store: Store, env: Env): Outcome<Reassigned>
    requires ValidEnv(env)
  {
    var r :- Reassign(store, env);
    var watchedIDs := env.watchedIDs + r.reassigned;
    var watched := WatchedInfos(env, watchedIDs);
    assert Enumerates(env.keys(r.store.threads.Keys), r.store.threads.Keys);
    var removedThreads := Unwatched(env.keys(r.store.threads.Keys), watched);
    var removedIDs := ListedIn(r.store.threads, removedThreads);
    Ok(Reassigned(
      Store(r.store.messages - removedIDs,
            KeptThreads(r.store.threads, watched, env, watchedIDs),
            r.store.local - removedIDs,
            r.store.currentAsOf),
      r.ops + [RemoveForThreads(removedThreads)],
      r.reassigned))
  }

  /** `{ ...updated, messages: processed.messages }` with the operations replayed. */
  function Updated(store: Store, env: Env): Outcome<Reassigned>
    requires ValidEnv(env)
  {
    var r :- UpdateWithLatest(store, env);
    Ok(r.(store := r.store.(messages := Replay(store.messages, r.ops))))
  }

  // ----- mergeNewMessages (270-569) -----

  function WatchedMessages(infos: seq<Message>, env: Env, watchedIDs: seq<string>): (r: seq<Message>)
    ensures forall m :: m in r ==> m in infos
  {
    if |infos| == 0 then []
    else
      var front, m := WatchedMessages(infos[..|infos| - 1], env, watchedIDs), infos[|infos| - 1];
      assert infos == infos[..|infos| - 1] + [m];
      if IsThreadWatched(m.threadID, InfoOf(env.threadInfos, m.threadID), watchedIDs) then front + [m] else front
  }

  /** The store knows the message by local ID only: the branch that records a rekey. */
  predicate MatchesLocal(m: Message, stored: map<string, Message>) {
    && Composable(m.mtype)
    && !(m.id in stored && stored[m.id].localID != "")
    && m.localID != "" && m.localID in stored && stored[m.localID].localID != ""
  }

  /** The closure mapped over the delivered messages (308-413). */
  function Adopt(m: Message, stored: map<string, Message>): Outcome<Message> {
    if m.id == "" || IsPending(m.threadID) then Throw
    else if Composable(m.mtype) then
      if m.id in stored && stored[m.id].localID != "" then Ok(m.(localID := stored[m.id].localID))
      else if MatchesLocal(m, stored) then Ok(m.(localID := stored[m.localID].localID))
      else Ok(m.(localID := ""))
    else if m.id in stored && m.time > stored[m.id].time then
      if CanStartThread(m.mtype) then Ok(stored[m.id]) else Throw
    else Ok(m)
  }

  function AdoptAll(infos: seq<Message>, stored: map<string, Message>): Outcome<seq<Message>> {
    if |infos| == 0 then Ok([])
    else
      var front :- AdoptAll(infos[..|infos| - 1], stored);
      var last :- Adopt(infos[|infos| - 1], stored);
      Ok(front + [last])
  }

  /** `localIDsToServerIDs` */
  function Rekeys(infos: seq<Message>, stored: map<string, Message>): map<string, string> {
    if |infos| == 0 then map[]
    else
      var front, m := Rekeys(infos[..|infos| - 1], stored), infos[|infos| - 1];
      if m.id != "" && MatchesLocal(m, stored) then front[m.localID := m.id] else front
  }

  function RekeyedIDs(ids: seq<string>, rekeys: map<string, string>): seq<string> {
    seq(|ids|, i requires 0 <= i < |ids| => if ids[i] in rekeys then rekeys[ids[i]] else ids[i])
  }

  /** Everything the thread loops read. */
  datatype Incoming = Incoming(arrived: seq<Message>, rekeys: map<string, string>, statuses: map<string, Status>, now: int)

  predicate IsTruncated(inc: Incoming, t: string) {
    t in inc.statuses && inc.statuses[t] == Truncated
  }

  predicate IsExhaustive(inc: Incoming, t: string) {
    t in inc.statuses && inc.statuses[t] == Exhaustive
  }

  function OldIDs(inc: Incoming, u: Store, t: string): seq<string>
    requires t in u.threads
  {
    RekeyedIDs(u.threads[t].messageIDs, inc.rekeys)
  }

  /** Does this thread's list mix delivered and held IDs, so that it is sorted again? */
  predicate NeedsResort(inc: Incoming, u: Store, t: string) {
    && t in GroupKeys(inc.arrived) && t in u.threads && !IsTruncated(inc, t)
    && Difference(Group(inc.arrived, t), OldIDs(inc, u, t)) != []
  }

  /** Held IDs that stay next to the delivered ones. */
  function KeptIDs(inc: Incoming, u: Store, t: string): seq<string> {
    if t in GroupKeys(inc.arrived) then
      if t !in u.threads || IsTruncated(inc, t) then [] else Difference(OldIDs(inc, u, t), Group(inc.arrived, t))
    else if t in u.threads then u.threads[t].messageIDs
    else []
  }

  /** The thread before sorting; Throw is the `could not find` invariant. */
  function MergedThread(inc: Incoming, u: Store, t: string): Outcome<ThreadMessages>
    requires t in GroupKeys(inc.arrived) || t in u.threads
  {
    if t !in GroupKeys(inc.arrived) then
      Ok(if IsExhaustive(inc, t) then u.threads[t].(startReached := true) else u.threads[t])
    else
      var ids := Group(inc.arrived, t);
      if t !in u.threads then Ok(ThreadMessages(ids, IsExhaustive(inc, t), 0, inc.now))
      else
        var held := u.threads[t];
        if IsTruncated(inc, t) then Ok(held.(messageIDs := ids, startReached := false))
        else if !(forall id :: id in KeptIDs(inc, u, t) ==> id in u.messages) then Throw
        else
          Ok(held.(messageIDs := if NeedsResort(inc, u, t) then ids + KeptIDs(inc, u, t) else OldIDs(inc, u, t),
                  startReached := held.startReached || IsExhaustive(inc, t)))
  }

  function StoredOf(messages: map<string, Message>, ids: seq<string>): seq<Message> {
    if |ids| == 0 then []
    else
      var front, id := StoredOf(messages, ids[..|ids| - 1]), ids[|ids| - 1];
      if id in messages then front + [messages[id]] else front
  }

  lemma {:induction false} StoredOfMembers(messages: map<string, Message>, ids: seq<string>)
    ensures forall m :: m in StoredOf(messages, ids) <==> exists id :: id in ids && id in messages && messages[id] == m
  {
    if |ids| > 0 {
      StoredOfMembers(messages, ids[..|ids| - 1]);
      assert ids == ids[..|ids| - 1] + [ids[|ids| - 1]];
    }
  }

  /** `oldMessageInfosToCombine` */
  function Combined(inc: Incoming, u: Store, order: seq<string>): seq<Message> {
    if |order| == 0 then []
    else Combined(inc, u, order[..|order| - 1]) + StoredOf(u.messages, KeptIDs(inc, u, order[|order| - 1]))
  }

  lemma {:induction false} CombinedMembers(inc: Incoming, u: Store, order: seq<string>)
    ensures forall m :: m in Combined(inc, u, order) ==> exists t, id :: t in order && id in KeptIDs(inc, u, t) && id in u.messages && u.messages[id] == m
    ensures forall t, id :: t in order && id in KeptIDs(inc, u, t) && id in u.messages ==> u.messages[id] in Combined(inc, u, order)
  {
    if |order| > 0 {
      var front, t := order[..|order| - 1], order[|order| - 1];
      CombinedMembers(inc, u, front);
      StoredOfMembers(u.messages, KeptIDs(inc, u, t));
      assert order == front + [t];
    }
  }

  /** The order in which threads are visited: those with delivered messages, then the others. */
  function VisitOrder(inc: Incoming, u: Store, env: Env): seq<string> {
    env.keys(GroupKeys(inc.arrived)) + Unwatched(env.keys(u.threads.Keys), GroupKeys(inc.arrived))
  }

  /** The scratch map `messages` that the sort reads. */
  function Scratch(inc: Incoming, u: Store, env: Env): map<string, Message> {
    Keyed(SortMessageInfos(inc.arrived + Combined(inc, u, VisitOrder(inc, u, env))))
  }

  function FinalThread(inc: Incoming, u: Store, scratch: map<string, Message>, t: string): Outcome<ThreadMessages>
    requires t in GroupKeys(inc.arrived) || t in u.threads
  {
    var merged :- MergedThread(inc, u, t);
    if !NeedsResort(inc, u, t) then Ok(merged)
    else
      var ids :- SortMessageIDs(scratch, merged.messageIDs);
      Ok(merged.(messageIDs := ids))
  }

  function TruncateOps(inc: Incoming, u: Store, order: seq<string>): seq<Op> {
    if |order| == 0 then []
    else
      var front, t := TruncateOps(inc, u, order[..|order| - 1]), order[|order| - 1];
      if t in u.threads && IsTruncated(inc, t) then front + [RemoveForThreads([t])] else front
  }

  function ReplaceOps(newMessages: map<string, Message>, order: seq<string>): seq<Op>
    requires forall k :: k in order ==> k in newMessages
  {
    seq(|order|, i requires 0 <= i < |order| => Replace(order[i], newMessages[order[i]]))
  }

  function RemoveOps(rekeys: map<string, string>, env: Env): seq<Op> {
    if rekeys == map[] then [] else [Remove(env.keys(rekeys.Keys))]
  }

  function MergeOps(inc: Incoming, u: Store, env: Env): seq<Op>
    requires ValidEnv(env)
  {
    assert Enumerates(env.keys(Keyed(inc.arrived).Keys), Keyed(inc.arrived).Keys);
    TruncateOps(inc, u, env.keys(GroupKeys(inc.arrived)))
    + ReplaceOps(Keyed(inc.arrived), env.keys(Keyed(inc.arrived).Keys))
    + RemoveOps(inc.rekeys, env)
  }

  function KeptLocal(inc: Incoming, u: Store): map<string, LocalInfo> {
    var kept := set t, id | t in GroupKeys(inc.arrived) + u.threads.Keys && id in KeptIDs(inc, u, t) :: id;
    map id | id in u.local && id in kept :: u.local[id]
  }

  function IncomingOf(infos: seq<Message>, statuses: map<string, Status>, u: Reassigned, env: Env): Outcome<Incoming> {
    var mine := WatchedMessages(infos, env, env.watchedIDs + u.reassigned);
    var adopted :- AdoptAll(mine, u.store.messages);
    if !AllHaveID(adopted) then Throw
    else Ok(Incoming(SortMessageInfos(adopted), Rekeys(mine, u.store.messages), statuses, env.now))
  }

  function FinalThreads(inc: Incoming, u: Store, scratch: map<string, Message>): Outcome<map<string, ThreadMessages>> {
    var ts := GroupKeys(inc.arrived) + u.threads.Keys;
    if exists t :: t in ts && FinalThread(inc, u, scratch, t).Throw? then Throw
    else Ok(map t | t in ts :: FinalThread(inc, u, scratch, t).value)
  }

  function MergeIncoming(inc: Incoming, u: Store, env: Env): Outcome<Store>
    requires ValidEnv(env)
  {
    var threads :- FinalThreads(inc, u, Scratch(inc, u, env));
    Ok(Store(
      Replay(u.messages, MergeOps(inc, u, env)),
      threads,
      KeptLocal(inc, u),
      Max(if inc.arrived != [] then inc.arrived[0].time else 0, u.currentAsOf)))
  }

  function MergeNewMessages(store: Store, infos: seq<Message>, statuses: map<string, Status>, env: Env): Outcome<(Store, seq<Op>)>
    requires ValidEnv(env)
  {
    var u :- Updated(store, env);
    var inc :- IncomingOf(infos, statuses, u, env);
    var merged :- MergeIncoming(inc, u.store, env);
    Ok((merged, u.ops + MergeOps(inc, u.store, env)))
  }

  // ----- mergeUpdatesWithMessageInfos (1426-1458) and combineTruncationStatuses -----

  datatype Update = JoinThread(threadID: string, infos: seq<Message>, status: Status) | OtherUpdate

  function CombineStatuses(first: Status, second: Option<Status>): Status {
    if first == Exhaustive || second == Some(Exhaustive) then Exhaustive
    else if first == Unchanged && second.Some? then second.value
    else first
  }

  datatype Payload = Payload(infos: seq<Message>, statuses: map<string, Status>)

  function AddNew(infos: seq<Message>, extra: seq<Message>): seq<Message> {
    if |extra| == 0 then infos
    else
      var front, m := AddNew(infos, extra[..|extra| - 1]), extra[|extra| - 1];
      if exists x :: x in front && x.id == m.id then front else front + [m]
  }

  function MergeUpdates(p: Payload, updates: seq<Update>): Payload {
    if |updates| == 0 then p
    else
      var front, last := MergeUpdates(p, updates[..|updates| - 1]), updates[|updates| - 1];
      match last
      case OtherUpdate => front
      case JoinThread(t, infos, status) =>
        Payload(AddNew(front.infos, infos),
                front.statuses[t := CombineStatuses(status, if t in front.statuses then Some(front.statuses[t]) else None)])
  }

  // ----- reduceMessageStore (688-1420) -----

  const DEFAULT_NUMBER_PER_THREAD := 20

  datatype Action =
    | LoginSuccess(infos: seq<Message>, statuses: map<string, Status>, currentAsOf: int)
    | IncrementalSync(infos: seq<Message>, statuses: map<string, Status>, updates: seq<Update>)
    | ProcessUpdates(updates: seq<Update>)
      /** full sync, pushed messages, and the fetches */
    | FetchMessages(infos: seq<Message>, statuses: map<string, Status>)
      /** log-out, account or thread deletion, leaving a thread, new session */
    | Deauthorize
      /** new thread, joined thread */
    | ThreadResult(infos: seq<Message>, updates: seq<Update>)
    | Register(infos: seq<Message>)
      /** thread settings, members and roles, entry changes, message reports */
    | ThreadChange(threadID: string, infos: seq<Message>)
    | SendStarted(message: Message)
    | SendFailed(localID: string)
    | ReactionFailed(localID: string, threadID: string)
    | SendSuccess(localID: string, serverID: string, threadID: string, time: int)
    | SaveMessages(infos: seq<Message>)
    | Prune(threadIDs: seq<string>)
    | UpdateMedia(id: string, content: string)
    | CreateLocal(message: Message)
    | ProcessServerRequests
    | OtherAction

  function StatusForAll(infos: seq<Message>, status: Status): map<string, Status> {
    map t | t in GroupKeys(infos) :: status
  }

  function EnsureRealized(m: Message, env: Env): Message
    requires ValidEnv(env)
  {
    var n := RealizedID(P2R(env), m.threadID);
    if n == "" then m else m.(threadID := n)
  }

  function ListOf(store: Store, t: string): seq<string> {
    if t in store.threads then store.threads[t].messageIDs else []
  }

  function ThreadOr(store: Store, t: string, now: int): ThreadMessages {
    if t in store.threads then store.threads[t] else ThreadMessages([], true, now, now)
  }

  /** The `started` branch once the realized thread ID is in place. */
  function StartSend(store: Store, m: Message, now: int): Outcome<(Store, seq<Op>)> {
    if m.localID == "" then Throw
    else
      var ops := [Replace(m.localID, m)];
      var messages := Replay(store.messages, ops);
      var ids, thread := ListOf(store, m.threadID), ThreadOr(store, m.threadID, now);
      if m.localID in store.messages then
        var sorted :- SortMessageIDs(store.messages[m.localID := m], ids);
        Ok((store.(messages := messages,
                   threads := store.threads[m.threadID := thread.(messageIDs := sorted)],
                   local := store.local - {m.localID}), ops))
      else if exists id :: id in ids && id in store.messages && store.messages[id].localID == m.localID then
        Ok((store, []))
      else
        Ok((store.(messages := messages,
                   threads := store.threads[m.threadID := thread.(messageIDs := [m.localID] + ids)]), ops))
  }

  function ReduceSendStarted(store: Store, message: Message, env: Env): Outcome<(Store, seq<Op>)>
    requires ValidEnv(env)
  {
    StartSend(store, EnsureRealized(message, env), env.now)
  }

  function ReduceReactionFailed(store: Store, localID: string, t: string): Outcome<(Store, seq<Op>)> {
    if t !in store.threads then Throw
    else
      var ops := [Remove([localID])];
      Ok((store.(messages := Replay(store.messages, ops),
                 threads := store.threads[t := store.threads[t].(messageIDs := Difference(store.threads[t].messageIDs, [localID]))]),
          ops))
  }

  function ReplaceKey(ids: seq<string>, from: string, to: string): (r: seq<string>)
    ensures |r| == |ids|
  {
    seq(|ids|, i requires 0 <= i < |ids| => if ids[i] == from then to else ids[i])
  }

  /** `newMessages`, the map the acknowledged message is looked up in. */
  function Acknowledged(store: Store, localID: string, serverID: string): map<string, Message>
    requires serverID in store.messages || localID in store.messages
  {
    if serverID in store.messages then
      map k | k in store.messages
            && !(store.messages[k].mtype.Text? && store.messages[k].id == "" && store.messages[k].localID == localID)
        :: store.messages[k]
    else store.messages[serverID := store.messages[localID]] - (if localID == serverID then {} else {localID})
  }

  /** The acknowledged message; spreading an absent message yields only the three fields set here. */
  function SuccessMessage(store: Store, localID: string, serverID: string, time: int): Message
    requires serverID in store.messages || localID in store.messages
  {
    var messages := Acknowledged(store, localID, serverID);
    var base := if serverID in messages then messages[serverID] else Message("", "", "", 0, OtherType(0), "");
    base.(id := serverID, localID := localID, time := time)
  }

  function ReduceSendSuccess(store: Store, localID: string, serverID: string, t: string, time: int): Outcome<(Store, seq<Op>)> {
    if IsPending(t) then Throw
    else if serverID !in store.messages && localID !in store.messages then Ok((store, []))
    else if t !in store.threads then Throw
    else
      var message := SuccessMessage(store, localID, serverID, time);
      var ops := [if serverID in store.messages then Remove([localID]) else Rekey(localID, serverID), Replace(serverID, message)];
      var ids :- SortMessageIDs(Acknowledged(store, localID, serverID)[serverID := message],
                                Uniq(ReplaceKey(store.threads[t].messageIDs, localID, serverID)));
      Ok((store.(messages := Replay(store.messages, ops),
                 threads := store.threads[t := store.threads[t].(messageIDs := ids)],
                 local := store.local - {localID}), ops))
  }

  function PrunedThread(thread: ThreadMessages, now: int): ThreadMessages {
    if |thread.messageIDs| <= DEFAULT_NUMBER_PER_THREAD then thread.(lastPruned := now)
    else thread.(lastPruned := now, messageIDs := thread.messageIDs[..DEFAULT_NUMBER_PER_THREAD], startReached := false)
  }

  function PrunedIDs(store: Store, threadIDs: seq<string>): seq<string> {
    if |threadIDs| == 0 then []
    else
      var front, t := PrunedIDs(store, threadIDs[..|threadIDs| - 1]), threadIDs[|threadIDs| - 1];
      // a thread named twice has been cut already
      if t in store.threads && t !in threadIDs[..|threadIDs| - 1] && |store.threads[t].messageIDs| > DEFAULT_NUMBER_PER_THREAD
      then front + store.threads[t].messageIDs[DEFAULT_NUMBER_PER_THREAD..]
      else front
  }

  function ReducePrune(store: Store, threadIDs: seq<string>, now: int): (Store, seq<Op>) {
    var pruned := PrunedIDs(store, threadIDs);
    var ops := [Remove(pruned)];
    (store.(messages := Replay(store.messages, ops),
            threads := map t | t in store.threads :: if t in threadIDs then PrunedThread(store.threads[t], now) else store.threads[t],
            local := map k | k in store.local && k !in pruned :: store.local[k]),
     ops)
  }

  function ReduceUpdateMedia(store: Store, id: string, content: string): Outcome<(Store, seq<Op>)> {
    if id !in store.messages || !(store.messages[id].mtype.Images? || store.messages[id].mtype.Multimedia?) then Throw
    else
      var ops := [Replace(id, store.messages[id].(content := content))];
      Ok((store.(messages := Replay(store.messages, ops)), ops))
  }

  function AddLocal(store: Store, m: Message, now: int): (Store, seq<Op>) {
    var ops := [Replace(m.localID, m)];
    (store.(messages := Replay(store.messages, ops),
            threads := store.threads[m.threadID :=
              ThreadOr(store, m.threadID, now).(messageIDs := [m.localID] + ListOf(store, m.threadID))]),
     ops)
  }

  function ReduceCreateLocal(store: Store, message: Message, env: Env): (Store, seq<Op>)
    requires ValidEnv(env)
  {
    AddLocal(store, EnsureRealized(message, env), env.now)
  }

  /** The messages and statuses an action hands to `mergeNewMessages`; None when it does not merge. */
  function Delivered(action: Action): Option<Payload> {
    match action
    case IncrementalSync(infos, statuses, updates) =>
      if infos == [] && updates == [] then None else Some(MergeUpdates(Payload(infos, statuses), updates))
    case ProcessUpdates(updates) => if updates == [] then None else Some(MergeUpdates(Payload([], map[]), updates))
    case FetchMessages(infos, statuses) => Some(Payload(infos, statuses))
    case ThreadResult(infos, updates) => Some(MergeUpdates(Payload(infos, map[]), updates))
    case Register(infos) => Some(Payload(infos, StatusForAll(infos, Exhaustive)))
    case ThreadChange(t, infos) => Some(Payload(infos, map[t := Unchanged]))
    case SaveMessages(infos) => Some(Payload(infos, StatusForAll(infos, Unchanged)))
    case _ => None
  }

  /** Some deliveries may not move the checkpoint. */
  function WithCheckpoint(r: Outcome<(Store, seq<Op>)>, action: Action, store: Store): Outcome<(Store, seq<Op>)> {
    var merged :- r;
    Ok(if action.ProcessUpdates? || action.SaveMessages? then (merged.0.(currentAsOf := store.currentAsOf), merged.1) else merged)
  }

  function ReduceDelivery(store: Store, action: Action, p: Payload, env: Env): Outcome<(Store, seq<Op>)>
    requires ValidEnv(env)
  {
    WithCheckpoint(MergeNewMessages(store, p.infos, p.statuses, env), action, store)
  }

  function ReduceOther(store: Store, action: Action, env: Env): Outcome<(Store, seq<Op>)>
    requires ValidEnv(env)
  {
    match action
    case LoginSuccess(infos, statuses, currentAsOf) =>
      var r :- FreshStore(infos, statuses, currentAsOf, env);
      Ok((r.0.(messages := Replay(store.messages, r.1)), r.1))
    case Deauthorize =>
      var u :- Updated(store, env);
      Ok((u.store, u.ops))
    case SendStarted(m) => ReduceSendStarted(store, m, env)
    case SendFailed(localID) => Ok((store.(local := store.local[localID := LocalInfo(true)]), []))
    case ReactionFailed(localID, t) => ReduceReactionFailed(store, localID, t)
    case SendSuccess(localID, serverID, t, time) => ReduceSendSuccess(store, localID, serverID, t, time)
    case Prune(threadIDs) => Ok(ReducePrune(store, threadIDs, env.now))
    case UpdateMedia(id, content) => ReduceUpdateMedia(store, id, content)
    case CreateLocal(m) => Ok(ReduceCreateLocal(store, m, env))
    case ProcessServerRequests =>
      var r :- Reassign(store, env);
      Ok((r.store.(messages := Replay(store.messages, r.ops)), r.ops))
    case _ => Ok((store, []))
  }

  function Reduce(store: Store, action: Action, env: Env): Outcome<(Store, seq<Op>)>
    requires ValidEnv(env)
  {
    match Delivered(action)
    case Some(p) => ReduceDelivery(store, action, p, env)
    case None => ReduceOther(store, action, env)
  }
}
