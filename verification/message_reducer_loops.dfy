/** The loops of lib/reducers/message-reducer.js, step by step over mutable locals, each proved to compute
    the function MessageReducer specifies. */
module MessageReducerLoops {
  import opened Collections
  import opened MessageModel
  import opened PendingThreads
  import opened ThreadMerge
  import opened MessageReducer

  /** `mapThreadsToMessageIDsFromOrderedMessageInfos` (103-116) */
  method MapThreadsToMessageIDs(ordered: seq<Message>) returns (groups: map<string, seq<string>>)
    ensures groups == Groups(ordered)
  {
    groups := map[];
    for i := 0 to |ordered|
      invariant groups == Groups(ordered[..i])
    {
      PrefixNext(ordered, i);
      GroupsCons(ordered[..i], ordered[i]);
      var t, key := ordered[i].threadID, MessageID(ordered[i]);
      assert [] + [key] == [key];
      if t !in groups {
        groups := groups[t := [key]];
      } else {
        groups := groups[t := groups[t] + [key]];
      }
    }
    assert ordered[..|ordered|] == ordered;
  }

  lemma GroupsCons(front: seq<Message>, last: Message)
    ensures GroupKeys(front + [last]) == GroupKeys(front) + {last.threadID}
    ensures Groups(front + [last]) ==
            Groups(front)[last.threadID := (if last.threadID in GroupKeys(front) then Group(front, last.threadID) else []) + [MessageID(last)]]
  {
    var all := front + [last];
    assert all[..|all| - 1] == front;
    forall t | t !in GroupKeys(front)
      ensures Group(front, t) == []
    {
      assert forall m :: m in front ==> m.threadID in GroupKeys(front);
      EmptyGroup(front, t);
    }
    assert forall t :: t in GroupKeys(front) ==> t in GroupKeys(all);
  }

  lemma EmptyGroup(infos: seq<Message>, t: string)
    requires forall m :: m in infos ==> m.threadID != t
    ensures Group(infos, t) == []
  {
    if |infos| > 0 {
      EmptyGroup(infos[..|infos| - 1], t);
    }
  }

  /** Empty lists for watched threads that have none: the loops at 175-184 and 608-616. */
  method AddWatchedThreads(base: map<string, ThreadMessages>, infos: map<string, RawThread>, keys: seq<string>, watchedIDs: seq<string>, now: int)
    returns (threads: map<string, ThreadMessages>)
    requires Enumerates(keys, infos.Keys)
    ensures threads == WithWatched(base, infos, watchedIDs, now)
  {
    threads := base;
    for i := 0 to |keys|
      invariant forall t :: t in threads <==> t in base || (t in keys[..i] && IsThreadWatched(t, InfoOf(infos, t), watchedIDs))
      invariant forall t :: t in threads ==> threads[t] == if t in base then base[t] else EmptyThread(now)
    {
      var t := keys[i];
      if IsThreadWatched(t, InfoOf(infos, t), watchedIDs) && t !in threads {
        threads := threads[t := EmptyThread(now)];
      }
    }
    assert keys[..|keys|] == keys;
  }

  function WithWatched(base: map<string, ThreadMessages>, infos: map<string, RawThread>, watchedIDs: seq<string>, now: int): map<string, ThreadMessages> {
    map t | t in base.Keys + infos.Keys && (t in base || IsThreadWatched(t, InfoOf(infos, t), watchedIDs))
      :: if t in base then base[t] else EmptyThread(now)
  }

  /** `freshMessageStore` (142-189) */
  method FreshMessageStore(infos: seq<Message>, statuses: map<string, Status>, currentAsOf: int, env: Env)
    returns (r: Outcome<(Store, seq<Op>)>)
    requires ValidEnv(env)
    ensures r == FreshStore(infos, statuses, currentAsOf, env)
  {
    if exists m :: m in infos && MessageID(m) == "" {
      return Throw;
    }
    var ordered := SortMessageInfos(infos);
    var ops := [RemoveAll] + Replacements(ordered);
    var groups := MapThreadsToMessageIDs(ordered);
    var threads := map t | t in groups :: ThreadMessages(groups[t], t in statuses && statuses[t] == Exhaustive, 0, env.now);
    var keys := env.keys(env.threadInfos.Keys);
    assert Enumerates(keys, env.threadInfos.Keys);
    var all := AddWatchedThreads(threads, env.threadInfos, keys, env.watchedIDs, env.now);
    FreshThreadsAre(ordered, statuses, env, threads);
    r := Ok((Store(Keyed(ordered), all, map[], currentAsOf), ops));
  }

  lemma FreshThreadsAre(ordered: seq<Message>, statuses: map<string, Status>, env: Env, threads: map<string, ThreadMessages>)
    requires var groups := Groups(ordered);
      threads == map t | t in groups :: ThreadMessages(groups[t], t in statuses && statuses[t] == Exhaustive, 0, env.now)
    ensures FreshThreads(ordered, statuses, env) == WithWatched(threads, env.threadInfos, env.watchedIDs, env.now)
  {
  }

  /** The message loop of `reassignMessagesToRealizedThreads` (205-229) */
  method ReassignMessageLoop(messages: map<string, Message>, p2r: map<string, string>, infos: map<string, RawThread>, keys: seq<string>)
    returns (reassigned: map<string, Message>, ops: seq<Op>)
    requires forall k :: k in keys <==> k in messages
    ensures reassigned == ReassignedMessages(messages, p2r, infos)
    ensures ops == ReassignOps(messages, p2r, infos, keys)
  {
    reassigned, ops := map[], [];
    for i := 0 to |keys|
      invariant ReassignedSoFar(reassigned, messages, p2r, infos, ToSet(keys[..i]))
      invariant ops == ReassignOps(messages, p2r, infos, keys[..i])
    {
      var k := keys[i];
      ReassignOpsNext(messages, p2r, infos, keys, i);
      var m := ReassignedMessage(messages[k], p2r, infos);
      ReassignedNext(reassigned, messages, p2r, infos, ToSet(keys[..i]), k);
      reassigned := reassigned[k := m];
      if RealizedID(p2r, messages[k].threadID) != "" {
        ops := ops + [Replace(k, m)];
      }
    }
    assert keys[..|keys|] == keys;
    ReassignedAll(reassigned, messages, p2r, infos, ToSet(keys));
  }

  ghost predicate ReassignedSoFar(reassigned: map<string, Message>, messages: map<string, Message>, p2r: map<string, string>,
                                  infos: map<string, RawThread>, done: set<string>) {
    && reassigned.Keys == done <= messages.Keys
    && forall k :: k in reassigned ==> reassigned[k] == ReassignedMessage(messages[k], p2r, infos)
  }

  lemma ReassignedNext(reassigned: map<string, Message>, messages: map<string, Message>, p2r: map<string, string>,
                       infos: map<string, RawThread>, done: set<string>, k: string)
    requires ReassignedSoFar(reassigned, messages, p2r, infos, done) && k in messages
    ensures ReassignedSoFar(reassigned[k := ReassignedMessage(messages[k], p2r, infos)], messages, p2r, infos, done + {k})
  {
  }

  lemma ReassignedAll(reassigned: map<string, Message>, messages: map<string, Message>, p2r: map<string, string>,
                      infos: map<string, RawThread>, done: set<string>)
    requires ReassignedSoFar(reassigned, messages, p2r, infos, done) && forall k :: k in done <==> k in messages
    ensures reassigned == ReassignedMessages(messages, p2r, infos)
  {
    assert done == messages.Keys;
  }

  lemma ReassignOpsNext(messages: map<string, Message>, p2r: map<string, string>, infos: map<string, RawThread>, keys: seq<string>, i: nat)
    requires i < |keys| && forall k :: k in keys ==> k in messages
    ensures keys[i] in messages && ToSet(keys[..i + 1]) == ToSet(keys[..i]) + {keys[i]}
    ensures var ops := ReassignOps(messages, p2r, infos, keys[..i]);
      ReassignOps(messages, p2r, infos, keys[..i + 1])
      == if RealizedID(p2r, messages[keys[i]].threadID) == "" then ops
         else ops + [Replace(keys[i], ReassignedMessage(messages[keys[i]], p2r, infos))]
  {
    PrefixNext(keys, i);
    assert keys[..i + 1][..i] == keys[..i];
  }

  /** The thread loop of `reassignMessagesToRealizedThreads` (231-251) */
  method ReassignThreadLoop(threads: map<string, ThreadMessages>, p2r: map<string, string>, messages: map<string, Message>, keys: seq<string>)
    returns (r: Outcome<Threads>)
    requires forall t :: t in keys ==> t in threads
    ensures r == ReassignThreads(threads, p2r, messages, keys)
  {
    var result, reassigned := map[], [];
    for i := 0 to |keys|
      invariant ReassignThreads(threads, p2r, messages, keys[..i]) == Ok(Threads(result, reassigned))
    {
      PrefixNext(keys, i);
      var t := keys[i];
      assert t in keys;
      var n := RealizedID(p2r, t);
      if n == "" {
        result := result[t := threads[t]];
      } else if n !in threads {
        reassigned := reassigned + [n];
        result := result[n := threads[t]];
      } else {
        var merged := MergeThreadMessageInfos(threads[t], threads[n], messages);
        if merged.Throw? {
          ReassignThrows(threads, p2r, messages, keys, i + 1);
          return Throw;
        }
        result := result[n := merged.value];
      }
    }
    assert keys[..|keys|] == keys;
    r := Ok(Threads(result, reassigned));
  }

  /** A throw part of the way is a throw. */
  lemma ReassignThrows(threads: map<string, ThreadMessages>, p2r: map<string, string>, messages: map<string, Message>, keys: seq<string>, i: nat)
    requires forall t :: t in keys ==> t in threads
    requires i <= |keys| && ReassignThreads(threads, p2r, messages, keys[..i]).Throw?
    ensures ReassignThreads(threads, p2r, messages, keys).Throw?
  {
    if i == |keys| {
      assert keys[..i] == keys;
    } else {
      assert keys[..|keys| - 1][..i] == keys[..i];
      ReassignThrows(threads, p2r, messages, keys[..|keys| - 1], i);
    }
  }

  method ReassignMessagesToRealizedThreads(store: Store, env: Env) returns (r: Outcome<Reassigned>)
    requires ValidEnv(env)
    ensures r == Reassign(store, env)
  {
    var infoKeys, messageKeys, threadKeys :=
      env.keys(env.threadInfos.Keys), env.keys(store.messages.Keys), env.keys(store.threads.Keys);
    assert Enumerates(infoKeys, env.threadInfos.Keys);
    assert Enumerates(messageKeys, store.messages.Keys);
    assert Enumerates(threadKeys, store.threads.Keys);
    var p2r := PendingToRealizedThreadIDs(env.threadInfos, infoKeys);
    var messages, ops := ReassignMessageLoop(store.messages, p2r, env.threadInfos, messageKeys);
    var threads := ReassignThreadLoop(store.threads, p2r, messages, threadKeys);
    if threads.Throw? {
      return Throw;
    }
    r := Ok(Reassigned(store.(threads := threads.value.threads, messages := messages), ops, threads.value.reassigned));
  }

  /** The loop that collects what to remove (596-606) */
  method CollectUnwatched(threads: map<string, ThreadMessages>, keys: seq<string>, watched: set<string>)
    returns (removedThreads: seq<string>, removedIDs: set<string>)
    requires forall t :: t in keys ==> t in threads
    ensures removedThreads == Unwatched(keys, watched) && removedIDs == ListedIn(threads, removedThreads)
  {
    removedThreads, removedIDs := [], {};
    for i := 0 to |keys|
      invariant removedThreads == Unwatched(keys[..i], watched)
      invariant removedIDs == ListedIn(threads, removedThreads)
    {
      PrefixNext(keys, i);
      var t := keys[i];
      assert t in keys;
      if t !in watched {
        removedThreads := removedThreads + [t];
        removedIDs := removedIDs + ToSet(threads[t].messageIDs);
      }
    }
    assert keys[..|keys|] == keys;
  }

  lemma KeptThreadsAre(threads: map<string, ThreadMessages>, watched: set<string>, env: Env, watchedIDs: seq<string>)
    ensures KeptThreads(threads, watched, env, watchedIDs) ==
            WithWatched(map t | t in threads && t in watched :: threads[t], env.threadInfos, watchedIDs, env.now)
  {
  }

  /** `updateMessageStoreWithLatestThreadInfos` (576-633) */
  method UpdateMessageStoreWithLatestThreadInfos(store: Store, env: Env) returns (r: Outcome<Reassigned>)
    requires ValidEnv(env)
    ensures r == UpdateWithLatest(store, env)
  {
    var reassigned := ReassignMessagesToRealizedThreads(store, env);
    if reassigned.Throw? {
      return Throw;
    }
    var held, ops := reassigned.value.store, reassigned.value.ops;
    var watchedIDs := env.watchedIDs + reassigned.value.reassigned;
    var watched := WatchedInfos(env, watchedIDs);
    var filtered := map t | t in held.threads && t in watched :: held.threads[t];
    var keys := env.keys(held.threads.Keys);
    assert Enumerates(keys, held.threads.Keys);
    var removedThreads, removedIDs := CollectUnwatched(held.threads, keys, watched);
    var infoKeys := env.keys(env.threadInfos.Keys);
    assert Enumerates(infoKeys, env.threadInfos.Keys);
    var kept := AddWatchedThreads(filtered, env.threadInfos, infoKeys, watchedIDs, env.now);
    KeptThreadsAre(held.threads, watched, env, watchedIDs);
    r := Ok(Reassigned(
      Store(held.messages - removedIDs, kept, held.local - removedIDs, held.currentAsOf),
      ops + [RemoveForThreads(removedThreads)],
      reassigned.value.reassigned));
  }

  /** One delivered message, in the mapped closure of `mergeNewMessages` (294-415). */
  method AdoptMessage(info: Message, stored: map<string, Message>, before: map<string, string>) returns (r: Outcome<Message>, rekeys: map<string, string>)
    ensures r == Adopt(info, stored)
    ensures rekeys == if info.id != "" && !IsPending(info.threadID) && MatchesLocal(info, stored) then before[info.localID := info.id] else before
  {
    var m := info;
    rekeys := before;
    if m.id == "" || IsPending(m.threadID) {
      return Throw, rekeys;
    }
    if Composable(m.mtype) {
      if m.id in stored && stored[m.id].localID != "" {
        m := m.(localID := stored[m.id].localID);
      } else if m.localID != "" && m.localID in stored && stored[m.localID].localID != "" {
        rekeys := rekeys[m.localID := m.id];
        m := m.(localID := stored[m.localID].localID);
      } else {
        m := m.(localID := "");
      }
    } else if m.id in stored && m.time > stored[m.id].time {
      if !CanStartThread(m.mtype) {
        return Throw, rekeys;
      }
      m := stored[m.id];
    }
    r := Ok(m);
  }

  /** The mapped closure of `mergeNewMessages` (294-415), with the map it fills on the side. */
  method AdoptDelivered(infos: seq<Message>, stored: map<string, Message>) returns (r: Outcome<seq<Message>>, rekeys: map<string, string>)
    ensures r == AdoptAll(infos, stored)
    ensures r.Ok? ==> rekeys == Rekeys(infos, stored)
  {
    var adopted := [];
    rekeys := map[];
    for i := 0 to |infos|
      invariant AdoptAll(infos[..i], stored) == Ok(adopted)
      invariant rekeys == Rekeys(infos[..i], stored)
    {
      assert infos[..i + 1][..i] == infos[..i];
      var m;
      m, rekeys := AdoptMessage(infos[i], stored, rekeys);
      if m.Throw? {
        AdoptThrows(infos, stored, i + 1);
        return Throw, rekeys;
      }
      adopted := adopted + [m.value];
    }
    assert infos[..|infos|] == infos;
    r := Ok(adopted);
  }

  lemma AdoptThrows(infos: seq<Message>, stored: map<string, Message>, i: nat)
    requires i <= |infos| && AdoptAll(infos[..i], stored).Throw?
    ensures AdoptAll(infos, stored).Throw?
  {
    if i == |infos| {
      assert infos[..i] == infos;
    } else {
      assert infos[..|infos| - 1][..i] == infos[..i];
      AdoptThrows(infos[..|infos| - 1], stored, i);
    }
  }

  /** `mergeUpdatesWithMessageInfos` (1426-1458) */
  method MergeUpdatesWithMessageInfos(p: Payload, updates: seq<Update>) returns (r: Payload)
    ensures r == MergeUpdates(p, updates)
  {
    var ids := set m | m in p.infos :: m.id;
    r := p;
    for i := 0 to |updates|
      invariant r == MergeUpdates(p, updates[..i])
      invariant ids == set m | m in r.infos :: m.id
    {
      PrefixNext(updates, i);
      if updates[i].JoinThread? {
        var t, infos := updates[i].threadID, updates[i].infos;
        ghost var before := r.infos;
        for j := 0 to |infos|
          invariant r == MergeUpdates(p, updates[..i]).(infos := AddNew(before, infos[..j]))
          invariant ids == set m | m in r.infos :: m.id
        {
          assert infos[..j + 1] == infos[..j] + [infos[j]];
          if infos[j].id !in ids {
            r := r.(infos := r.infos + [infos[j]]);
            ids := ids + {infos[j].id};
          }
        }
        assert infos[..|infos|] == infos;
        r := r.(statuses := r.statuses[t := CombineStatuses(updates[i].status, if t in r.statuses then Some(r.statuses[t]) else None)]);
      }
    }
    assert updates[..|updates|] == updates;
  }

  // ----- the thread loops of `mergeNewMessages` (421-519) -----

  /** Held messages and local infos under the given IDs. */
  method CollectHeld(u: Store, ids: seq<string>) returns (found: seq<Message>, missing: bool, local: map<string, LocalInfo>)
    ensures found == StoredOf(u.messages, ids)
    ensures missing <==> exists id :: id in ids && id !in u.messages
    ensures local == LocalAt(u, ToSet(ids))
  {
    found, missing, local := [], false, map[];
    for i := 0 to |ids|
      invariant found == StoredOf(u.messages, ids[..i])
      invariant missing <==> exists id :: id in ids[..i] && id !in u.messages
      invariant local == LocalAt(u, ToSet(ids[..i]))
    {
      PrefixNext(ids, i);
      var id := ids[i];
      LocalAtNext(u, ids, i);
      if id in u.messages {
        found := found + [u.messages[id]];
      } else {
        missing := true;
      }
      if id in u.local {
        local := local[id := u.local[id]];
      }
    }
    assert ids[..|ids|] == ids;
  }

  function LocalAt(u: Store, ids: set<string>): map<string, LocalInfo> {
    map id | id in u.local && id in ids :: u.local[id]
  }

  lemma LocalAtNext(u: Store, ids: seq<string>, i: nat)
    requires i < |ids|
    ensures var local := LocalAt(u, ToSet(ids[..i]));
      LocalAt(u, ToSet(ids[..i + 1])) == if ids[i] in u.local then local[ids[i] := u.local[ids[i]]] else local
  {
    assert ToSet(ids[..i + 1]) == ToSet(ids[..i]) + {ids[i]};
  }

  function KeptSet(inc: Incoming, u: Store, order: seq<string>): set<string> {
    if |order| == 0 then {} else KeptSet(inc, u, order[..|order| - 1]) + ToSet(KeptIDs(inc, u, order[|order| - 1]))
  }

  lemma {:induction false} KeptSetMembers(inc: Incoming, u: Store, order: seq<string>, id: string)
    ensures id in KeptSet(inc, u, order) <==> exists t :: t in order && id in KeptIDs(inc, u, t)
  {
    if |order| > 0 {
      KeptSetMembers(inc, u, order[..|order| - 1], id);
      assert order == order[..|order| - 1] + [order[|order| - 1]];
    }
  }

  lemma LocalAtUnion(u: Store, a: set<string>, b: set<string>)
    ensures LocalAt(u, a + b) == LocalAt(u, a) + LocalAt(u, b)
  {
  }

  lemma KeptSetCons(inc: Incoming, u: Store, front: seq<string>, t: string)
    ensures KeptSet(inc, u, front + [t]) == KeptSet(inc, u, front) + ToSet(KeptIDs(inc, u, t))
    ensures LocalAt(u, KeptSet(inc, u, front + [t])) == LocalAt(u, KeptSet(inc, u, front)) + LocalAt(u, ToSet(KeptIDs(inc, u, t)))
    ensures Combined(inc, u, front + [t]) == Combined(inc, u, front) + StoredOf(u.messages, KeptIDs(inc, u, t))
  {
    assert (front + [t])[..|front|] == front;
    LocalAtUnion(u, KeptSet(inc, u, front), ToSet(KeptIDs(inc, u, t)));
  }

  datatype Progress = Progress(
    threads: map<string, ThreadMessages>, ops: seq<Op>, combined: seq<Message>, local: map<string, LocalInfo>, resort: seq<string>)

  ghost predicate ThreadsDone(inc: Incoming, u: Store, done: seq<string>, threads: map<string, ThreadMessages>) {
    && (forall t :: t in threads <==> t in done)
    && forall t {:trigger ThreadDone(inc, u, threads, t)} :: t in done ==> ThreadDone(inc, u, threads, t)
  }

  ghost predicate ResortsDone(inc: Incoming, u: Store, done: seq<string>, resort: seq<string>) {
    && NoDup(resort)
    && (forall t :: t in resort ==> t in done)
    && forall t {:trigger NeedsResort(inc, u, t)} :: t in done ==> (t in resort <==> NeedsResort(inc, u, t))
  }

  ghost predicate Merged(inc: Incoming, u: Store, done: seq<string>, p: Progress) {
    && ThreadsDone(inc, u, done, p.threads)
    && p.combined == Combined(inc, u, done)
    && p.local == LocalAt(u, KeptSet(inc, u, done))
    && ResortsDone(inc, u, done, p.resort)
  }

  ghost predicate ThreadDone(inc: Incoming, u: Store, threads: map<string, ThreadMessages>, t: string) {
    && t in threads && (t in GroupKeys(inc.arrived) || t in u.threads)
    && MergedThread(inc, u, t) == Ok(threads[t])
  }

  lemma ThreadsCons(inc: Incoming, u: Store, done: seq<string>, threads: map<string, ThreadMessages>, t: string, thread: ThreadMessages)
    requires ThreadsDone(inc, u, done, threads)
    requires t in GroupKeys(inc.arrived) || t in u.threads
    requires MergedThread(inc, u, t) == Ok(thread)
    ensures ThreadsDone(inc, u, done + [t], threads[t := thread])
  {
    forall x | x in done + [t]
      ensures ThreadDone(inc, u, threads[t := thread], x)
    {
      if x != t {
        assert ThreadDone(inc, u, threads, x);
      }
    }
  }

  lemma ResortCons(inc: Incoming, u: Store, done: seq<string>, resort: seq<string>, t: string)
    requires ResortsDone(inc, u, done, resort) && t !in done
    ensures ResortsDone(inc, u, done + [t], if NeedsResort(inc, u, t) then resort + [t] else resort)
  {
    if NeedsResort(inc, u, t) {
      NoDupConcat(resort, [t]);
    }
  }

  /** One more thread visited. */
  lemma MergedCons(inc: Incoming, u: Store, done: seq<string>, p: Progress, t: string, thread: ThreadMessages, q: Progress)
    requires Merged(inc, u, done, p) && t !in done
    requires t in GroupKeys(inc.arrived) || t in u.threads
    requires MergedThread(inc, u, t) == Ok(thread)
    requires q.threads == p.threads[t := thread]
    requires q.combined == p.combined + StoredOf(u.messages, KeptIDs(inc, u, t))
    requires q.local == p.local + LocalAt(u, ToSet(KeptIDs(inc, u, t)))
    requires q.resort == if NeedsResort(inc, u, t) then p.resort + [t] else p.resort
    ensures Merged(inc, u, done + [t], q)
  {
    KeptSetCons(inc, u, done, t);
    ThreadsCons(inc, u, done, p.threads, t, thread);
    ResortCons(inc, u, done, p.resort, t);
  }

  /** One thread with delivered messages (425-492); the flag is the early `could not find` invariant. */
  method MergeListedThread(inc: Incoming, u: Store, t: string, ids: seq<string>)
    returns (thread: Outcome<ThreadMessages>, truncated: bool, resort: bool, found: seq<Message>, local: map<string, LocalInfo>)
    requires t in GroupKeys(inc.arrived) && ids == Group(inc.arrived, t)
    ensures thread == MergedThread(inc, u, t)
    ensures truncated <==> t in u.threads && IsTruncated(inc, t)
    ensures thread.Ok? ==> resort == NeedsResort(inc, u, t)
    ensures thread.Ok? ==> found == StoredOf(u.messages, KeptIDs(inc, u, t)) && local == LocalAt(u, ToSet(KeptIDs(inc, u, t)))
  {
    truncated, resort, found, local := false, false, [], map[];
    if t !in u.threads {
      return Ok(ThreadMessages(ids, IsExhaustive(inc, t), 0, inc.now)), truncated, resort, found, local;
    }
    var held := u.threads[t];
    var heldIDs := RekeyedIDs(held.messageIDs, inc.rekeys);
    if IsTruncated(inc, t) {
      return Ok(held.(messageIDs := ids, startReached := false)), true, resort, found, local;
    }
    var kept := Difference(heldIDs, ids);
    var missing;
    found, missing, local := CollectHeld(u, kept);
    if missing {
      return Throw, truncated, resort, found, local;
    }
    var startReached := held.startReached || IsExhaustive(inc, t);
    if Difference(ids, heldIDs) == [] {
      thread := Ok(held.(messageIDs := heldIDs, startReached := startReached));
    } else {
      resort := true;
      thread := Ok(held.(messageIDs := ids + kept, startReached := startReached));
    }
  }

  /** One turn of the loop over threads with delivered messages. */
  method VisitListed(inc: Incoming, u: Store, groups: map<string, seq<string>>, ghost done: seq<string>, p: Progress, t: string)
    returns (failed: bool, next: Progress)
    requires groups == Groups(inc.arrived) && t in GroupKeys(inc.arrived) && t !in done
    requires Merged(inc, u, done, p)
    ensures failed ==> MergedThread(inc, u, t).Throw?
    ensures !failed ==> Merged(inc, u, done + [t], next)
    ensures !failed ==> next.ops == if t in u.threads && IsTruncated(inc, t) then p.ops + [RemoveForThreads([t])] else p.ops
  {
    var thread, truncated, resort, found, local := MergeListedThread(inc, u, t, groups[t]);
    if thread.Throw? {
      return true, p;
    }
    failed := false;
    next := Progress(
      p.threads[t := thread.value],
      if truncated then p.ops + [RemoveForThreads([t])] else p.ops,
      p.combined + found,
      p.local + local,
      if resort then p.resort + [t] else p.resort);
    MergedCons(inc, u, done, p, t, thread.value, next);
  }

  lemma TruncateOpsCons(inc: Incoming, u: Store, done: seq<string>, t: string)
    ensures TruncateOps(inc, u, done + [t])
         == if t in u.threads && IsTruncated(inc, t) then TruncateOps(inc, u, done) + [RemoveForThreads([t])] else TruncateOps(inc, u, done)
  {
    assert (done + [t])[..|done|] == done;
  }

  method MergeListedThreads(inc: Incoming, u: Store, groups: map<string, seq<string>>, keys: seq<string>) returns (failed: bool, p: Progress)
    requires groups == Groups(inc.arrived) && NoDup(keys) && forall t :: t in keys <==> t in GroupKeys(inc.arrived)
    ensures failed ==> exists t :: t in keys && MergedThread(inc, u, t).Throw?
    ensures !failed ==> Merged(inc, u, keys, p) && p.ops == TruncateOps(inc, u, keys)
  {
    failed, p := false, Progress(map[], [], [], map[], []);
    for i := 0 to |keys|
      invariant Merged(inc, u, keys[..i], p)
      invariant p.ops == TruncateOps(inc, u, keys[..i])
    {
      PrefixNext(keys, i);
      var t := keys[i];
      assert t in keys && t !in keys[..i];
      TruncateOpsCons(inc, u, keys[..i], t);
      failed, p := VisitListed(inc, u, groups, keys[..i], p, t);
      if failed {
        return;
      }
    }
    assert keys[..|keys|] == keys;
  }

  /** One turn of the loop over the other threads (496-519): a thread already merged is skipped. */
  method VisitOther(inc: Incoming, u: Store, ghost done: seq<string>, p: Progress, t: string) returns (next: Progress)
    requires t in u.threads && (t in GroupKeys(inc.arrived) <==> t in done)
    requires Merged(inc, u, done, p)
    ensures Merged(inc, u, if t in GroupKeys(inc.arrived) then done else done + [t], next) && next.ops == p.ops
  {
    if t in p.threads {
      return p;
    }
    var thread := u.threads[t];
    if IsExhaustive(inc, t) {
      thread := thread.(startReached := true);
    }
    var found, _, local := CollectHeld(u, thread.messageIDs);
    next := p.(threads := p.threads[t := thread], combined := p.combined + found, local := p.local + local);
    MergedCons(inc, u, done, p, t, thread, next);
  }

  /** The threads without delivered messages (496-519). */
  method KeepOtherThreads(inc: Incoming, u: Store, listed: seq<string>, keys: seq<string>, before: Progress) returns (p: Progress)
    requires forall t :: t in listed <==> t in GroupKeys(inc.arrived)
    requires NoDup(keys) && forall t :: t in keys ==> t in u.threads
    requires Merged(inc, u, listed, before)
    ensures Merged(inc, u, listed + Unwatched(keys, GroupKeys(inc.arrived)), p) && p.ops == before.ops
  {
    p := before;
    ghost var groups, done := GroupKeys(inc.arrived), listed;
    assert listed + [] == listed;
    for i := 0 to |keys|
      invariant done == listed + Unwatched(keys[..i], groups)
      invariant Merged(inc, u, done, p) && p.ops == before.ops
    {
      var t := keys[i];
      OtherTurn(listed, keys, i, groups);
      p := VisitOther(inc, u, done, p, t);
      if t !in groups {
        done := done + [t];
      }
    }
    assert keys[..|keys|] == keys;
  }

  lemma OtherTurn(listed: seq<string>, keys: seq<string>, i: nat, groups: set<string>)
    requires (forall x :: x in listed <==> x in groups) && NoDup(keys) && i < |keys|
    ensures keys[i] in keys
    ensures keys[i] in listed + Unwatched(keys[..i], groups) <==> keys[i] in groups
    ensures listed + Unwatched(keys[..i + 1], groups)
         == if keys[i] in groups then listed + Unwatched(keys[..i], groups) else listed + Unwatched(keys[..i], groups) + [keys[i]]
  {
    assert keys[i] !in keys[..i];
    PrefixNext(keys, i);
    UnwatchedCons(keys[..i], keys[i], groups);
  }

  lemma UnwatchedCons(front: seq<string>, t: string, watched: set<string>)
    ensures Unwatched(front + [t], watched) == if t in watched then Unwatched(front, watched) else Unwatched(front, watched) + [t]
  {
    assert (front + [t])[..|front|] == front;
  }

  /** A thread whose list is sorted by the scratch map, or left as it is. */
  ghost predicate ThreadResorted(before: ThreadMessages, scratch: map<string, Message>, sorted: bool, after: ThreadMessages) {
    if sorted then
      && SortMessageIDs(scratch, before.messageIDs).Ok?
      && after == before.(messageIDs := SortMessageIDs(scratch, before.messageIDs).value)
    else after == before
  }

  /** `for (const threadID of threadsThatNeedMessageIDsResorted)` (541-545) */
  method ResortThreads(threads: map<string, ThreadMessages>, resort: seq<string>, scratch: map<string, Message>)
    returns (failed: bool, r: map<string, ThreadMessages>)
    requires NoDup(resort) && forall t :: t in resort ==> t in threads
    ensures failed ==> exists t :: t in resort && SortMessageIDs(scratch, threads[t].messageIDs).Throw?
    ensures !failed ==> ThreadsResorted(threads, scratch, resort, r)
  {
    failed, r := false, threads;
    for i := 0 to |resort|
      invariant ThreadsResorted(threads, scratch, resort[..i], r)
    {
      var t := resort[i];
      assert t in resort && t !in resort[..i] && ThreadResorted(threads[t], scratch, false, r[t]);
      var ids := SortMessageIDs(scratch, r[t].messageIDs);
      if ids.Throw? {
        return true, r;
      }
      PrefixNext(resort, i);
      var thread := r[t].(messageIDs := ids.value);
      ResortNext(threads, scratch, resort[..i], r, t, thread);
      r := r[t := thread];
    }
    assert resort[..|resort|] == resort;
  }

  ghost predicate ThreadsResorted(threads: map<string, ThreadMessages>, scratch: map<string, Message>, done: seq<string>, r: map<string, ThreadMessages>) {
    r.Keys == threads.Keys && forall t :: t in threads ==> ThreadResorted(threads[t], scratch, t in done, r[t])
  }

  lemma ResortNext(threads: map<string, ThreadMessages>, scratch: map<string, Message>, done: seq<string>, r: map<string, ThreadMessages>,
                   t: string, thread: ThreadMessages)
    requires ThreadsResorted(threads, scratch, done, r) && t in threads && ThreadResorted(threads[t], scratch, true, thread)
    ensures ThreadsResorted(threads, scratch, done + [t], r[t := thread])
  {
    var after := r[t := thread];
    assert after.Keys == threads.Keys;
    forall x | x in threads
      ensures ThreadResorted(threads[x], scratch, x in done + [t], after[x])
    {
      assert x in done + [t] <==> x in done || x == t;
    }
  }

  lemma FinalThreadsAre(inc: Incoming, u: Store, scratch: map<string, Message>, threads: map<string, ThreadMessages>)
    requires threads.Keys == GroupKeys(inc.arrived) + u.threads.Keys
    requires forall t :: t in threads ==> FinalThread(inc, u, scratch, t) == Ok(threads[t])
    ensures FinalThreads(inc, u, scratch) == Ok(threads)
  {
    var ts := GroupKeys(inc.arrived) + u.threads.Keys;
    assert forall t :: t in ts ==> FinalThread(inc, u, scratch, t).Ok?;
    assert (map t | t in ts :: FinalThread(inc, u, scratch, t).value) == threads;
  }

  /** The loops' local infos are the kept ones. */
  lemma KeptLocalIs(inc: Incoming, u: Store, order: seq<string>)
    requires forall t :: t in order <==> t in GroupKeys(inc.arrived) || t in u.threads
    ensures KeptLocal(inc, u) == LocalAt(u, KeptSet(inc, u, order))
  {
    forall id
      ensures id in KeptSet(inc, u, order)
         <==> exists t :: t in GroupKeys(inc.arrived) + u.threads.Keys && id in KeptIDs(inc, u, t)
    {
      KeptSetMembers(inc, u, order, id);
    }
  }

  /** Sorting the threads that need it finishes each thread. */
  lemma ResortFinishes(inc: Incoming, u: Store, done: seq<string>, p: Progress, scratch: map<string, Message>, threads: map<string, ThreadMessages>)
    requires Merged(inc, u, done, p) && ThreadsResorted(p.threads, scratch, p.resort, threads)
    requires p.threads.Keys == GroupKeys(inc.arrived) + u.threads.Keys
    ensures FinalThreads(inc, u, scratch) == Ok(threads)
  {
    forall t | t in threads
      ensures FinalThread(inc, u, scratch, t) == Ok(threads[t])
    {
      assert ThreadDone(inc, u, p.threads, t);
    }
    FinalThreadsAre(inc, u, scratch, threads);
  }

  /** `mergeNewMessages` (270-569) */
  method MergeNew(store: Store, infos: seq<Message>, statuses: map<string, Status>, env: Env) returns (r: Outcome<(Store, seq<Op>)>)
    requires ValidEnv(env)
    ensures r == MergeNewMessages(store, infos, statuses, env)
  {
    var latest := UpdateMessageStoreWithLatestThreadInfos(store, env);
    if latest.Throw? {
      return Throw;
    }
    var processed := ProcessMessageStoreOperations(store, latest.value.ops);
    var u := latest.value.store.(messages := processed.messages);
    var mine := WatchedMessages(infos, env, env.watchedIDs + latest.value.reassigned);
    var adopted, rekeys := AdoptDelivered(mine, u.messages);
    if adopted.Throw? || !AllHaveID(adopted.value) {
      return Throw;
    }
    var inc := Incoming(SortMessageInfos(adopted.value), rekeys, statuses, env.now);
    assert IncomingOf(infos, statuses, latest.value.(store := u), env) == Ok(inc);
    var merged, ops := MergeInto(inc, u, env);
    if merged.Throw? {
      return Throw;
    }
    r := Ok((merged.value, latest.value.ops + ops));
  }

  lemma FinalThreadsThrow(inc: Incoming, u: Store, scratch: map<string, Message>, t: string)
    requires t in GroupKeys(inc.arrived) || t in u.threads
    requires FinalThread(inc, u, scratch, t).Throw?
    ensures FinalThreads(inc, u, scratch).Throw?
  {
    assert t in GroupKeys(inc.arrived) + u.threads.Keys;
  }

  /** Both thread loops (424-519). */
  method VisitThreads(inc: Incoming, u: Store, listed: seq<string>, held: seq<string>) returns (failed: bool, p: Progress)
    requires NoDup(listed) && forall t :: t in listed <==> t in GroupKeys(inc.arrived)
    requires NoDup(held) && forall t :: t in held <==> t in u.threads
    ensures failed ==> forall scratch :: FinalThreads(inc, u, scratch).Throw?
    ensures !failed ==> Merged(inc, u, listed + Unwatched(held, GroupKeys(inc.arrived)), p)
    ensures !failed ==> p.ops == TruncateOps(inc, u, listed)
  {
    var groups := MapThreadsToMessageIDs(inc.arrived);
    failed, p := MergeListedThreads(inc, u, groups, listed);
    if failed {
      ghost var t :| t in listed && MergedThread(inc, u, t).Throw?;
      forall scratch
        ensures FinalThreads(inc, u, scratch).Throw?
      {
        FinalThreadsThrow(inc, u, scratch, t);
      }
      return;
    }
    p := KeepOtherThreads(inc, u, listed, held, p);
  }

  lemma ResortFails(inc: Incoming, u: Store, done: seq<string>, p: Progress, scratch: map<string, Message>, t: string)
    requires Merged(inc, u, done, p) && t in p.resort && t in p.threads
    requires SortMessageIDs(scratch, p.threads[t].messageIDs).Throw?
    ensures FinalThreads(inc, u, scratch).Throw?
  {
    assert NeedsResort(inc, u, t);
    assert ThreadDone(inc, u, p.threads, t);
    FinalThreadsThrow(inc, u, scratch, t);
  }

  lemma MergedShape(inc: Incoming, u: Store, done: seq<string>, p: Progress)
    requires Merged(inc, u, done, p) && forall t :: t in done <==> t in GroupKeys(inc.arrived) || t in u.threads
    ensures p.threads.Keys == GroupKeys(inc.arrived) + u.threads.Keys
    ensures p.combined == Combined(inc, u, done) && p.local == KeptLocal(inc, u)
    ensures NoDup(p.resort) && forall t :: t in p.resort ==> t in p.threads
  {
    KeptLocalIs(inc, u, done);
  }

  /** The scratch map and the sort (521-545). */
  method SortThreads(threads: map<string, ThreadMessages>, resort: seq<string>, infos: seq<Message>,
                     ghost inc: Incoming, ghost u: Store, ghost order: seq<string>, ghost p: Progress)
    returns (sorted: Outcome<map<string, ThreadMessages>>)
    requires p.threads == threads && p.resort == resort && Merged(inc, u, order, p)
    requires threads.Keys == GroupKeys(inc.arrived) + u.threads.Keys && NoDup(resort) && forall t :: t in resort ==> t in threads
    ensures sorted == FinalThreads(inc, u, Keyed(SortMessageInfos(infos)))
  {
    var scratch := Keyed(SortMessageInfos(infos));
    var failed, r := ResortThreads(threads, resort, scratch);
    if failed {
      ghost var t :| t in resort && SortMessageIDs(scratch, threads[t].messageIDs).Throw?;
      ResortFails(inc, u, order, p, scratch, t);
      return Throw;
    }
    ResortFinishes(inc, u, order, p, scratch, r);
    sorted := Ok(r);
  }

  /** From the adopted messages on (417-568). */
  method MergeInto(inc: Incoming, u: Store, env: Env) returns (r: Outcome<Store>, ops: seq<Op>)
    requires ValidEnv(env)
    ensures r == MergeIncoming(inc, u, env)
    ensures r.Ok? ==> ops == MergeOps(inc, u, env)
  {
    var listed, held, ids := env.keys(GroupKeys(inc.arrived)), env.keys(u.threads.Keys), env.keys(Keyed(inc.arrived).Keys);
    assert Enumerates(listed, GroupKeys(inc.arrived)) && Enumerates(held, u.threads.Keys) && Enumerates(ids, Keyed(inc.arrived).Keys);
    var failed, p := VisitThreads(inc, u, listed, held);
    if failed {
      return Throw, [];
    }
    ghost var order := VisitOrder(inc, u, env);
    MergedShape(inc, u, order, p);
    var threads := SortThreads(p.threads, p.resort, inc.arrived + p.combined, inc, u, order, p);
    if threads.Throw? {
      return Throw, [];
    }
    ops := p.ops + ReplaceOps(Keyed(inc.arrived), ids) + RemoveOps(inc.rekeys, env);
    var currentAsOf := Max(if inc.arrived != [] then inc.arrived[0].time else 0, u.currentAsOf);
    var processed := ProcessMessageStoreOperations(u, ops);
    r := Ok(Store(processed.messages, threads.value, p.local, currentAsOf));
  }

  // ----- pruning (1123-1149) -----

  ghost predicate PrunedSoFar(before: map<string, ThreadMessages>, after: map<string, ThreadMessages>, done: seq<string>, now: int) {
    after.Keys == before.Keys
    && forall t :: t in before ==> after[t] == if t in done then PrunedThread(before[t], now) else before[t]
  }

  /** The thread loop of the prune action. */
  method PruneThreads(store: Store, threadIDs: seq<string>, now: int) returns (threads: map<string, ThreadMessages>, messageIDsToPrune: seq<string>)
    ensures threads == ReducePrune(store, threadIDs, now).0.threads
    ensures ReducePrune(store, threadIDs, now).1 == [Remove(messageIDsToPrune)]
  {
    threads, messageIDsToPrune := store.threads, [];
    for i := 0 to |threadIDs|
      invariant PrunedSoFar(store.threads, threads, threadIDs[..i], now)
      invariant messageIDsToPrune == PrunedIDs(store, threadIDs[..i])
    {
      var t := threadIDs[i];
      PrefixNext(threadIDs, i);
      assert threadIDs[..i + 1][..i] == threadIDs[..i];
      if t in threads {
        var thread := threads[t].(lastPruned := now);
        if |thread.messageIDs| > DEFAULT_NUMBER_PER_THREAD {
          messageIDsToPrune := messageIDsToPrune + thread.messageIDs[DEFAULT_NUMBER_PER_THREAD..];
          thread := thread.(messageIDs := thread.messageIDs[..DEFAULT_NUMBER_PER_THREAD], startReached := false);
        }
        threads := threads[t := thread];
      }
    }
    assert threadIDs[..|threadIDs|] == threadIDs;
  }
}
