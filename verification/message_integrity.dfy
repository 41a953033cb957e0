/** Referential integrity of the message store: every listed ID is stored under its own ID, in its own
    thread, once.  Integrity of the thread-info update comes first, then of the merge, then of every
    action and of whole runs. */
module MessageIntegrity {
  import opened Collections
  import opened MessageIds
  import opened MessageModel
  import opened PendingThreads
  import opened ThreadMerge
  import opened MessageReducer

  ghost predicate GoodIDs(m: Message) {
    && (m.id == "" || !IsLocal(m.id))
    && (m.localID == "" || IsLocal(m.localID))
    && MessageID(m) != ""
  }

  ghost predicate WellKeyed(messages: map<string, Message>) {
    forall k :: k in messages ==> MessageID(messages[k]) == k && GoodIDs(messages[k])
  }

  ghost predicate Listed(ids: seq<string>, messages: map<string, Message>, t: string) {
    forall id :: id in ids ==> id in messages && messages[id].threadID == t
  }

  ghost predicate WF(store: Store) {
    && WellKeyed(store.messages)
    && forall t :: t in store.threads ==>
         NoDup(store.threads[t].messageIDs) && Listed(store.threads[t].messageIDs, store.messages, t)
  }

  // ----- reassignment of pending threads -----

  /** `r` is `messages` with the listed ones reassigned. */
  ghost predicate ReassignedAt(
    r: map<string, Message>, messages: map<string, Message>, p2r: map<string, string>, infos: map<string, RawThread>, order: seq<string>) {
    && (forall k :: k in r <==> k in messages)
    && forall k :: k in messages ==> r[k] == if k in order then ReassignedMessage(messages[k], p2r, infos) else messages[k]
  }

  lemma ReassignOne(
    r: map<string, Message>, messages: map<string, Message>, p2r: map<string, string>, infos: map<string, RawThread>, front: seq<string>, k: string)
    requires k in messages && ReassignedAt(r, messages, p2r, infos, front)
    ensures ReassignedAt(r[k := ReassignedMessage(messages[k], p2r, infos)], messages, p2r, infos, front + [k])
    ensures RealizedID(p2r, messages[k].threadID) == "" ==> ReassignedAt(r, messages, p2r, infos, front + [k])
  {
    var order := front + [k];
    assert forall x :: x in order <==> x in front || x == k;
  }

  lemma {:induction false} ReassignOpsReplay(messages: map<string, Message>, p2r: map<string, string>, infos: map<string, RawThread>, order: seq<string>)
    requires forall k :: k in order ==> k in messages
    ensures ReassignedAt(Replay(messages, ReassignOps(messages, p2r, infos, order)), messages, p2r, infos, order)
  {
    if |order| > 0 {
      var front, k := order[..|order| - 1], order[|order| - 1];
      ReassignOpsReplay(messages, p2r, infos, front);
      var ops := ReassignOps(messages, p2r, infos, front);
      ReassignOne(Replay(messages, ops), messages, p2r, infos, front, k);
      assert order == front + [k];
      ReplayLast(messages, ops, Replace(k, ReassignedMessage(messages[k], p2r, infos)));
    }
  }

  /** The emitted operations replay to the reassigned messages. */
  lemma ReassignMirror(store: Store, env: Env)
    requires ValidEnv(env) && Reassign(store, env).Ok?
    ensures Replay(store.messages, Reassign(store, env).value.ops) == Reassign(store, env).value.store.messages
  {
    var order := env.keys(store.messages.Keys);
    assert Enumerates(order, store.messages.Keys);
    ReassignOpsReplay(store.messages, P2R(env), env.threadInfos, order);
  }

  ghost predicate PendingToReal(p2r: map<string, string>) {
    forall p :: p in p2r ==> IsPending(p) && !IsPending(p2r[p])
  }

  lemma P2RSound(env: Env)
    requires ValidEnv(env)
    ensures PendingToReal(P2R(env))
    ensures forall p, q :: p in P2R(env) && q in P2R(env) && P2R(env)[p] == P2R(env)[q] ==> p == q
    ensures forall p :: p in P2R(env) ==> P2R(env)[p] in env.threadInfos
  {
    var keys := env.keys(env.threadInfos.Keys);
    assert Enumerates(keys, env.threadInfos.Keys);
    PendingToRealizedSound(env.threadInfos, keys);
  }

  ghost predicate ThreadsListed(threads: map<string, ThreadMessages>, messages: map<string, Message>) {
    forall t :: t in threads ==> NoDup(threads[t].messageIDs) && Listed(threads[t].messageIDs, messages, t)
  }

  lemma ListsApart(xs: seq<string>, ys: seq<string>, messages: map<string, Message>, t: string, n: string)
    requires Listed(xs, messages, t) && Listed(ys, messages, n) && t != n
    ensures Disjoint(xs, ys)
  {
    forall id | id in xs
      ensures id !in ys
    {
      assert messages[id].threadID == t;
    }
  }

  lemma MergedListed(xs: seq<string>, ys: seq<string>, messages: map<string, Message>, n: string)
    requires Listed(xs, messages, n) && Listed(ys, messages, n) && NoDup(xs) && NoDup(ys) && Disjoint(xs, ys)
    ensures Merge(xs, ys, messages).Ok? && NoDup(Merge(xs, ys, messages).value) && Listed(Merge(xs, ys, messages).value, messages, n)
  {
    MergeMembers(xs, ys, messages);
    MergeNoDup(xs, ys, messages);
  }

  lemma {:induction false} ReassignThreadsListed(
    threads: map<string, ThreadMessages>, p2r: map<string, string>, infos: map<string, RawThread>, before: map<string, Message>, order: seq<string>)
    requires ThreadsListed(threads, before) && PendingToReal(p2r)
    requires forall t :: t in order ==> t in threads
    ensures var r := ReassignThreads(threads, p2r, ReassignedMessages(before, p2r, infos), order);
      && r.Ok?
      && ThreadsListed(r.value.threads, ReassignedMessages(before, p2r, infos))
      && forall n :: n in r.value.reassigned ==> !IsPending(n)
  {
    if |order| > 0 {
      var messages := ReassignedMessages(before, p2r, infos);
      var t := order[|order| - 1];
      ReassignThreadsListed(threads, p2r, infos, before, order[..|order| - 1]);
      assert t in order;
      var n := RealizedID(p2r, t);
      if n != "" && n in threads {
        ListsApart(threads[t].messageIDs, threads[n].messageIDs, before, t, n);
        MergedListed(threads[t].messageIDs, threads[n].messageIDs, messages, n);
      }
    }
  }

  lemma ReassignKeepsWF(store: Store, env: Env)
    requires ValidEnv(env) && WF(store)
    ensures Reassign(store, env).Ok? && WF(Reassign(store, env).value.store)
  {
    P2RSound(env);
    var order := env.keys(store.threads.Keys);
    assert Enumerates(order, store.threads.Keys);
    ReassignThreadsListed(store.threads, P2R(env), env.threadInfos, store.messages, order);
  }

  /** The visiting order decides what becomes of a realized thread that is also held under its pending
      ID: merged if the realized key is visited first, as integer keys are, and the realized list alone,
      with the pending list lost, if it is visited last. */
  lemma {:induction false} ReassignOrderExact(
    threads: map<string, ThreadMessages>, p2r: map<string, string>, messages: map<string, Message>, order: seq<string>,
    p: string, n: string, i: nat, j: nat)
    requires PendingToReal(p2r) && (forall q, r :: q in p2r && r in p2r && p2r[q] == p2r[r] ==> q == r)
    requires NoDup(order) && (forall t :: t in order ==> t in threads)
    requires i < |order| && j < |order| && order[i] == n && order[j] == p
    requires p in p2r && p2r[p] == n && n != ""
    requires ReassignThreads(threads, p2r, messages, order).Ok?
    ensures MergeThreads(threads[p], threads[n], messages).Ok?
    ensures n in ReassignThreads(threads, p2r, messages, order).value.threads
    ensures ReassignThreads(threads, p2r, messages, order).value.threads[n] ==
            if i < j then MergeThreads(threads[p], threads[n], messages).value else threads[n]
  {
    var front, last := order[..|order| - 1], order[|order| - 1];
    assert order == front + [last];
    assert order[i] in order && order[j] in order;
    LastVisited(threads, p2r, messages, order, n);
    if i < |front| && j < |front| {
      ReassignOrderExact(threads, p2r, messages, front, p, n, i, j);
    } else if last == n {
      ReassignVisited(threads, p2r, messages, front, p, n, j);
    }
  }

  /** What the last visited key leaves of a realized thread that is held itself. */
  lemma LastVisited(
    threads: map<string, ThreadMessages>, p2r: map<string, string>, messages: map<string, Message>, order: seq<string>, n: string)
    requires (forall t :: t in order ==> t in threads) && |order| > 0 && n in threads
    requires ReassignThreads(threads, p2r, messages, order).Ok?
    ensures var front, last := order[..|order| - 1], order[|order| - 1];
      var before, r := ReassignThreads(threads, p2r, messages, front), ReassignThreads(threads, p2r, messages, order).value.threads;
      && before.Ok?
      && (last == n && RealizedID(p2r, last) == "" ==> n in r && r[n] == threads[n])
      && (n != "" && RealizedID(p2r, last) == n ==>
            MergeThreads(threads[last], threads[n], messages).Ok? && n in r &&
            r[n] == MergeThreads(threads[last], threads[n], messages).value)
      && (RealizedID(p2r, last) != n && last != n && n in before.value.threads ==> n in r && r[n] == before.value.threads[n])
  {
  }

  /** Once the pending key has been visited the merge has succeeded. */
  lemma {:induction false} ReassignVisited(
    threads: map<string, ThreadMessages>, p2r: map<string, string>, messages: map<string, Message>, order: seq<string>,
    p: string, n: string, j: nat)
    requires forall t :: t in order ==> t in threads
    requires j < |order| && order[j] == p && p in p2r && p2r[p] == n && n != "" && n in threads
    requires ReassignThreads(threads, p2r, messages, order).Ok?
    ensures p in threads && MergeThreads(threads[p], threads[n], messages).Ok?
  {
    assert order[j] in order;
    if j < |order| - 1 {
      ReassignVisited(threads, p2r, messages, order[..|order| - 1], p, n, j);
    }
  }

  /** Where each list of the reassigned store comes from. */
  ghost predicate ComesFrom(threads: map<string, ThreadMessages>, p2r: map<string, string>, messages: map<string, Message>,
                            src: string, t: string, thread: ThreadMessages) {
    && src in threads
    && if src == t then RealizedID(p2r, t) == "" && thread == threads[t]
       else
         && src in p2r && p2r[src] == t && t != ""
         && if t in threads then MergeThreads(threads[src], threads[t], messages) == Ok(thread) else thread == threads[src]
  }

  lemma {:induction false} ReassignedFrom(threads: map<string, ThreadMessages>, p2r: map<string, string>, messages: map<string, Message>,
                                          order: seq<string>, t: string) returns (src: string)
    requires PendingToReal(p2r) && (forall x :: x in order ==> x in threads)
    requires ReassignThreads(threads, p2r, messages, order).Ok? && t in ReassignThreads(threads, p2r, messages, order).value.threads
    ensures ComesFrom(threads, p2r, messages, src, t, ReassignThreads(threads, p2r, messages, order).value.threads[t])
  {
    var front, last := order[..|order| - 1], order[|order| - 1];
    assert order == front + [last] && last in order;
    var n := RealizedID(p2r, last);
    if (if n == "" then last == t else n == t) {
      src := last;
    } else {
      src := ReassignedFrom(threads, p2r, messages, front, t);
    }
  }

  ghost predicate Visited(order: seq<string>, first: string, second: string) {
    exists i, j :: 0 <= i < j < |order| && order[i] == first && order[j] == second
  }

  /** The lists of a pending thread p and its realized thread n are merged. */
  ghost predicate MergedPair(threads: map<string, ThreadMessages>, order: seq<string>, p: string, n: string) {
    n != "" && p in threads && n in threads && Visited(order, n, p)
  }

  ghost predicate AllTimeDescending(threads: map<string, ThreadMessages>, messages: map<string, Message>) {
    forall t :: t in threads ==> TimeDescending(threads[t].messageIDs, messages)
  }

  /** Wherever a pending list is merged into the realized one, copies of one message are in order, the
      pending ones all dated to the creation of the realized thread. */
  ghost predicate PendingCopiesInOrder(store: Store, env: Env)
    requires ValidEnv(env) && WF(store)
  {
    var p2r := P2R(env);
    forall p :: p in p2r && MergedPair(store.threads, env.keys(store.threads.Keys), p, p2r[p]) ==>
      CopiesInOrder(store.threads[p].messageIDs, store.threads[p2r[p]].messageIDs,
                    ReassignedMessages(store.messages, p2r, env.threadInfos))
  }

  /** A thread's list before it is moved or merged: pending lists get one time, others keep theirs. */
  lemma ReassignedTimes(store: Store, env: Env, t: string)
    requires ValidEnv(env) && WF(store) && t in store.threads && TimeDescending(store.threads[t].messageIDs, store.messages)
    ensures TimeDescending(store.threads[t].messageIDs, ReassignedMessages(store.messages, P2R(env), env.threadInfos))
  {
    P2RSound(env);
    var ids, p2r := store.threads[t].messageIDs, P2R(env);
    forall id | id in ids
      ensures store.messages[id].threadID == t
    {
    }
  }

  /** Reassignment keeps every list in descending time exactly when copies of one message are in order
      wherever a pending thread is merged into the one that realizes it. */
  lemma ReassignTimeOrderIff(store: Store, env: Env)
    requires ValidEnv(env) && WF(store) && AllTimeDescending(store.threads, store.messages)
    ensures Reassign(store, env).Ok?
    ensures var r := Reassign(store, env).value.store;
      AllTimeDescending(r.threads, r.messages) <==> PendingCopiesInOrder(store, env)
  {
    ReassignKeepsWF(store, env);
    P2RSound(env);
    var p2r, order, r := P2R(env), env.keys(store.threads.Keys), Reassign(store, env).value.store;
    assert Enumerates(order, store.threads.Keys);
    if AllTimeDescending(r.threads, r.messages) {
      forall p | p in p2r && MergedPair(store.threads, order, p, p2r[p])
        ensures CopiesInOrder(store.threads[p].messageIDs, store.threads[p2r[p]].messageIDs, r.messages)
      {
        MergedOrder(store, env, p, p2r[p]);
      }
    }
    if PendingCopiesInOrder(store, env) {
      forall t | t in r.threads
        ensures TimeDescending(r.threads[t].messageIDs, r.messages)
      {
        var src := ReassignedFrom(store.threads, p2r, r.messages, order, t);
        ReassignedTimes(store, env, src);
        if src != t && t in store.threads {
          ReassignedTimes(store, env, t);
          MergedOrder(store, env, src, t);
        }
      }
    }
  }

  /** What becomes of a realized thread that is held under its pending ID too. */
  lemma RealizedThread(store: Store, env: Env, p: string, n: string)
    requires ValidEnv(env) && WF(store)
    requires p in store.threads && n in store.threads && p in P2R(env) && P2R(env)[p] == n && n != ""
    ensures var messages := ReassignedMessages(store.messages, P2R(env), env.threadInfos);
      && Reassign(store, env).Ok? && n in Reassign(store, env).value.store.threads
      && MergeThreads(store.threads[p], store.threads[n], messages).Ok?
      && Reassign(store, env).value.store.threads[n] ==
         if Visited(env.keys(store.threads.Keys), n, p) then MergeThreads(store.threads[p], store.threads[n], messages).value
         else store.threads[n]
  {
    ReassignKeepsWF(store, env);
    P2RSound(env);
    var order := env.keys(store.threads.Keys);
    assert Enumerates(order, store.threads.Keys);
    assert n in order && p in order;
    var i :| 0 <= i < |order| && order[i] == n;
    var j :| 0 <= j < |order| && order[j] == p;
    ReassignOrderExact(store.threads, P2R(env), ReassignedMessages(store.messages, P2R(env), env.threadInfos), order, p, n, i, j);
    assert Visited(order, n, p) <==> i < j;
  }

  /** The list of a realized thread that is held under its pending ID too. */
  lemma MergedOrder(store: Store, env: Env, p: string, n: string)
    requires ValidEnv(env) && WF(store) && AllTimeDescending(store.threads, store.messages)
    requires p in store.threads && n in store.threads && p in P2R(env) && P2R(env)[p] == n && n != ""
    ensures Reassign(store, env).Ok? && n in Reassign(store, env).value.store.threads
    ensures var r := Reassign(store, env).value.store;
      TimeDescending(r.threads[n].messageIDs, r.messages) <==>
        (Visited(env.keys(store.threads.Keys), n, p) ==> CopiesInOrder(store.threads[p].messageIDs, store.threads[n].messageIDs, r.messages))
  {
    RealizedThread(store, env, p, n);
    ReassignedTimes(store, env, p);
    ReassignedTimes(store, env, n);
    MergeTimeDescending(store.threads[p].messageIDs, store.threads[n].messageIDs, Reassign(store, env).value.store.messages);
  }

  // ----- dropping unwatched threads -----

  /** Dropping unwatched threads only takes messages away from the reassigned ones. */
  lemma UpdatedFewer(store: Store, env: Env)
    requires ValidEnv(env) && WF(store)
    ensures Reassign(store, env).Ok? && Updated(store, env).Ok?
    ensures var before, after := Reassign(store, env).value.store.messages, Updated(store, env).value.store.messages;
      forall k :: k in after ==> k in before && after[k] == before[k]
  {
    ReassignKeepsWF(store, env);
    ReassignMirror(store, env);
    var r := Reassign(store, env).value;
    var order := env.keys(r.store.threads.Keys);
    assert Enumerates(order, r.store.threads.Keys);
    var removed := Unwatched(order, WatchedInfos(env, env.watchedIDs + r.reassigned));
    ReplayConcat(store.messages, r.ops, [RemoveForThreads(removed)]);
    assert [RemoveForThreads(removed)][..0] == [];
    assert Updated(store, env).value.store.messages == Apply(r.store.messages, RemoveForThreads(removed));
  }

  /** After the thread-info update the store has integrity, its messages are the replay of the
      emitted operations, and every thread it holds is known and watched. */
  lemma UpdatedKeepsWF(store: Store, env: Env)
    requires ValidEnv(env) && WF(store)
    ensures Updated(store, env).Ok?
    ensures var u := Updated(store, env).value;
      && WF(u.store)
      && u.store.messages == Replay(store.messages, u.ops)
      && forall t :: t in u.store.threads ==>
           (t in env.threadInfos && IsThreadWatched(t, InfoOf(env.threadInfos, t), env.watchedIDs + u.reassigned))
  {
    ReassignKeepsWF(store, env);
    ReassignMirror(store, env);
    var r := Reassign(store, env).value;
    var watchedIDs := env.watchedIDs + r.reassigned;
    var watched := WatchedInfos(env, watchedIDs);
    var order := env.keys(r.store.threads.Keys);
    assert Enumerates(order, r.store.threads.Keys);
    var removed := Unwatched(order, watched);
    var u := Updated(store, env).value;
    ReplayConcat(store.messages, r.ops, [RemoveForThreads(removed)]);
    assert [RemoveForThreads(removed)][..0] == [];
    assert Replay(r.store.messages, [RemoveForThreads(removed)]) == Apply(r.store.messages, RemoveForThreads(removed));
    assert u.store.messages == Apply(r.store.messages, RemoveForThreads(removed));
  }
}
