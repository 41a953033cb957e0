/** Payloads on which `mergeNewMessages` leaves a thread with a repeated ID, or out of order, although
    everything delivered is plausible. */
module MessageCounterexamples {
  import opened Collections
  import opened MessageIds
  import opened MessageModel
  import opened PendingThreads
  import opened MessageReducer
  import opened MessageIntegrity
  import opened MessageMerge
  import opened MessageRuns

  // ----- a store in which nothing is pending -----

  /** Every thread held is known, watched and realized, and every known thread is held. */
  ghost predicate Idle(store: Store, env: Env) {
    && store.threads.Keys == env.threadInfos.Keys
    && (forall t :: t in env.threadInfos ==> !IsPending(t) && IsThreadWatched(t, InfoOf(env.threadInfos, t), env.watchedIDs))
    && forall k :: k in store.messages ==> !IsPending(store.messages[k].threadID)
  }

  lemma {:induction false} ReassignIdleThreads(threads: map<string, ThreadMessages>, p2r: map<string, string>, messages: map<string, Message>, order: seq<string>)
    requires forall t :: t in order ==> t in threads && t !in p2r
    ensures var r := ReassignThreads(threads, p2r, messages, order);
      r.Ok? && r.value.reassigned == [] && r.value.threads.Keys == ToSet(order) && forall t :: t in r.value.threads ==> r.value.threads[t] == threads[t]
  {
    if |order| > 0 {
      ReassignIdleThreads(threads, p2r, messages, order[..|order| - 1]);
      assert order == order[..|order| - 1] + [order[|order| - 1]];
    }
  }

  lemma ReassignIdle(store: Store, env: Env)
    requires ValidEnv(env) && Idle(store, env)
    ensures Reassign(store, env).Ok? && Reassign(store, env).value.store == store && Reassign(store, env).value.reassigned == []
  {
    P2RSound(env);
    var order := env.keys(store.threads.Keys);
    assert Enumerates(order, store.threads.Keys);
    var messages := ReassignedMessages(store.messages, P2R(env), env.threadInfos);
    assert messages == store.messages;
    ReassignIdleThreads(store.threads, P2R(env), messages, order);
    assert Reassign(store, env).value.store.threads == store.threads;
  }

  /** The thread-info update changes nothing. */
  lemma UpdatedIdle(store: Store, env: Env)
    requires ValidEnv(env) && WF(store) && Idle(store, env)
    ensures Updated(store, env).Ok? && Updated(store, env).value.store == store && Updated(store, env).value.reassigned == []
  {
    ReassignIdle(store, env);
    ReassignMirror(store, env);
    var ops := Reassign(store, env).value.ops;
    var order, watched := env.keys(store.threads.Keys), WatchedInfos(env, env.watchedIDs + []);
    assert env.watchedIDs + [] == env.watchedIDs && Enumerates(order, store.threads.Keys);
    assert watched == store.threads.Keys;
    var removed := Unwatched(order, watched);
    NoMembers(removed);
    KeptIdle(store, env);
    ReplayConcat(store.messages, ops, [RemoveForThreads([])]);
    SingleReplay(store.messages, RemoveForThreads([]));
    assert Apply(store.messages, RemoveForThreads([])) == store.messages;
    var none: set<string> := {};
    assert ListedIn(store.threads, []) == none && store.local - none == store.local;
  }

  lemma NoMembers(s: seq<string>)
    ensures s == [] || exists x :: x in s
  {
    if s != [] {
      assert s[0] in s;
    }
  }

  lemma KeptIdle(store: Store, env: Env)
    requires Idle(store, env)
    ensures KeptThreads(store.threads, store.threads.Keys, env, env.watchedIDs) == store.threads
  {
  }

  // ----- one message delivered to a thread that holds it -----

  ghost function Delivery(store: Store, m: Message, env: Env): Incoming
    requires Adopt(m, store.messages).Ok?
  {
    Incoming([Adopt(m, store.messages).value], Rekeys([m], store.messages), map[m.threadID := Unchanged], env.now)
  }

  lemma LoneArrival(store: Store, m: Message, env: Env)
    requires ValidEnv(env) && WF(store) && Idle(store, env)
    requires MessageFits(m, store.messages) && m.threadID in store.threads
    ensures Updated(store, env).Ok? && Updated(store, env).value.store == store
    ensures DeliveryFits(store, [m], env)
    ensures Adopt(m, store.messages).Ok? && Arriving(store, [m], map[m.threadID := Unchanged], env) == Ok(Delivery(store, m, env))
  {
    UpdatedIdle(store, env);
    AdoptFacts(m, store.messages);
    LoneMine(store, m, env);
    SingleSort(Adopt(m, store.messages).value);
    LoneAdopted(m, store.messages);
    LoneFits(m, store.messages);
    LoneIncoming(store, m, Updated(store, env).value, env);
  }

  lemma LoneIncoming(store: Store, m: Message, u: Reassigned, env: Env)
    requires u.store == store && u.reassigned == [] && WatchedMessages([m], env, env.watchedIDs + []) == [m]
    requires Adopt(m, store.messages).Ok? && Adopt(m, store.messages).value.id != ""
    requires AdoptAll([m], store.messages) == Ok([Adopt(m, store.messages).value])
    requires SortMessageInfos([Adopt(m, store.messages).value]) == [Adopt(m, store.messages).value]
    ensures IncomingOf([m], map[m.threadID := Unchanged], u, env) == Ok(Delivery(store, m, env))
  {
    assert AllHaveID([Adopt(m, store.messages).value]);
  }

  lemma LoneFits(m: Message, stored: map<string, Message>)
    requires MessageFits(m, stored)
    ensures PayloadFits([m], stored)
  {
  }

  lemma LoneMine(store: Store, m: Message, env: Env)
    requires ValidEnv(env) && Idle(store, env) && m.threadID in store.threads
    requires Updated(store, env).Ok? && Updated(store, env).value.store == store && Updated(store, env).value.reassigned == []
    ensures WatchedMessages([m], env, env.watchedIDs + []) == [m] && Mine(store, [m], env) == [m]
  {
    assert env.watchedIDs + [] == env.watchedIDs;
    assert [m][..0] == [] && WatchedMessages([m][..0], env, env.watchedIDs) == [];
  }

  lemma LoneAdopted(m: Message, stored: map<string, Message>)
    requires Adopt(m, stored).Ok?
    ensures AdoptAll([m], stored) == Ok([Adopt(m, stored).value])
  {
    var mine, none: seq<Message> := [m], [];
    assert mine[..|mine| - 1] == none && AdoptAll(none, stored) == Ok([]);
    assert [] + [Adopt(m, stored).value] == [Adopt(m, stored).value];
  }

  lemma SingleSort(m: Message)
    ensures SortMessageInfos([m]) == [m]
  {
    var r := SortMessageInfos([m]);
    assert |r| == 1 && r[0] in r;
  }

  /** What the merge makes of it where nothing is to be sorted. */
  lemma LoneMerge(store: Store, m: Message, env: Env)
    requires ValidEnv(env) && WF(store) && Idle(store, env)
    requires MessageFits(m, store.messages) && m.threadID in store.threads && Adopt(m, store.messages).Ok?
    requires !NeedsResort(Delivery(store, m, env), store, m.threadID) && m.threadID in GroupKeys(Delivery(store, m, env).arrived)
    ensures MergeNewMessages(store, [m], map[m.threadID := Unchanged], env).Ok?
    ensures var r := MergeNewMessages(store, [m], map[m.threadID := Unchanged], env).value.0;
      && r.messages == MergedMessages(Delivery(store, m, env), store)
      && m.threadID in r.threads && r.threads[m.threadID].messageIDs == OldIDs(Delivery(store, m, env), store, m.threadID)
  {
    LoneArrival(store, m, env);
    var inc := Delivery(store, m, env);
    ArrivingFits(store, [m], map[m.threadID := Unchanged], env);
    MergeIncomingResult(inc, store, env);
    KeptStored(inc, store, m.threadID);
    UnsortedValue(inc, store, Scratch(inc, store, env), m.threadID);
    MergeOf(store, [m], map[m.threadID := Unchanged], env);
  }

  // ----- the examples -----

  const THREAD := RawThread("1", 0, [], "", 0, true, true)

  ghost predicate OneThreadEnv(env: Env) {
    ValidEnv(env) && env.threadInfos == map["1" := THREAD]
  }

  function StoreOf(first: Message, firstID: string, second: Message, secondID: string): Store {
    Store(map[firstID := first, secondID := second], map["1" := ThreadMessages([firstID, secondID], true, 0, 0)], map[], 0)
  }

  lemma NumberIDs()
    ensures |"local5"| == 6 && |"7"| == 1 && |"8"| == 1 && |"9"| == 1 && "7"[0] == '7' && "8"[0] == '8' && "9"[0] == '9'
    ensures IsLocal("local5") && !IsLocal("7") && !IsLocal("8") && !IsLocal("9") && !IsPending("1")
    ensures "local5" != "7" && "local5" != "8" && "local5" != "9" && "7" != "8" && "8" != "9" && "7" != "9"
  {
    assert "local5"[..5] == "local";
  }

  lemma ExampleStore(first: Message, firstID: string, second: Message, secondID: string, env: Env)
    requires OneThreadEnv(env) && MessageID(first) == firstID && MessageID(second) == secondID && firstID != secondID
    requires GoodIDs(first) && GoodIDs(second) && first.threadID == "1" && second.threadID == "1"
    ensures WF(StoreOf(first, firstID, second, secondID)) && Idle(StoreOf(first, firstID, second, secondID), env)
  {
    NumberIDs();
    var ids := [firstID, secondID];
    assert ids[0] == firstID && ids[1] == secondID;
  }

  /** One delivered message, by the IDs it leaves in a list of two. */
  lemma ExampleLists(store: Store, inc: Incoming, a: Message, firstID: string, secondID: string, newFirst: string, newSecond: string)
    requires inc.arrived == [a] && a.threadID == "1" && inc.statuses == map["1" := Unchanged]
    requires "1" in store.threads && store.threads["1"].messageIDs == [firstID, secondID]
    requires newFirst == (if firstID in inc.rekeys then inc.rekeys[firstID] else firstID)
    requires newSecond == (if secondID in inc.rekeys then inc.rekeys[secondID] else secondID)
    requires MessageID(a) in [newFirst, newSecond]
    ensures "1" in GroupKeys(inc.arrived) && !NeedsResort(inc, store, "1")
    ensures OldIDs(inc, store, "1") == [newFirst, newSecond]
  {
    assert a in inc.arrived && inc.arrived[..0] == [];
    assert Group(inc.arrived, "1") == [MessageID(a)];
    var missing := Difference([MessageID(a)], [newFirst, newSecond]);
    assert [newFirst, newSecond][0] == newFirst && [newFirst, newSecond][1] == newSecond;
    NoMembers(missing);
    assert [firstID, secondID][0] == firstID && [firstID, secondID][1] == secondID;
    assert OldIDs(inc, store, "1") == [newFirst, newSecond];
  }

  lemma LoneRekey(m: Message, stored: map<string, Message>)
    ensures Rekeys([m], stored) == if m.id != "" && MatchesLocal(m, stored) then map[m.localID := m.id] else map[]
  {
    assert [m][..0] == [] && Rekeys([m][..0], stored) == map[];
  }

  /** Server message 7, stored without its local ID, and its local copy are both listed: delivering 7
      with that local ID lists 7 twice. */
  lemma StaleCopyDuplicates(env: Env)
    requires OneThreadEnv(env)
    ensures var store := StoreOf(Message("", "local5", "1", 4, Text, ""), "local5", Message("7", "", "1", 3, Text, ""), "7");
      var m := Message("7", "local5", "1", 3, Text, "");
      && WF(store) && DeliveryFits(store, [m], env)
      && MergeNewMessages(store, [m], map["1" := Unchanged], env).Ok?
      && "1" in MergeNewMessages(store, [m], map["1" := Unchanged], env).value.0.threads
      && MergeNewMessages(store, [m], map["1" := Unchanged], env).value.0.threads["1"].messageIDs == ["7", "7"]
  {
    NumberIDs();
    var first, second, m := Message("", "local5", "1", 4, Text, ""), Message("7", "", "1", 3, Text, ""), Message("7", "local5", "1", 3, Text, "");
    var store := StoreOf(first, "local5", second, "7");
    ExampleStore(first, "local5", second, "7", env);
    LoneRekey(m, store.messages);
    LoneArrival(store, m, env);
    ExampleLists(store, Delivery(store, m, env), m, "local5", "7", "7", "7");
    LoneMerge(store, m, env);
  }

  lemma TwoIDsSorted(messages: map<string, Message>, a: string, b: string)
    requires a in messages && b in messages && messages[a].time != messages[b].time
    ensures SortedIDs(messages, [a, b]) <==> messages[a].time > messages[b].time
  {
    var ids := [a, b];
    assert ids[0] == a && ids[1] == b;
    assert RankLess(IDRank(messages, a, MaxLengths(ids)), IDRank(messages, b, MaxLengths(ids))) <==> messages[a].time < messages[b].time;
  }

  /** The server dates a message earlier than the client did: the rekeyed list keeps it where the client
      put it, in front of a newer one. */
  lemma RekeyLosesOrder(env: Env)
    requires OneThreadEnv(env)
    ensures var store := StoreOf(Message("", "local5", "1", 4, Text, ""), "local5", Message("8", "", "1", 3, Text, ""), "8");
      var m := Message("9", "local5", "1", 2, Text, "");
      && WF(store) && DeliveryFits(store, [m], env) && SortedIDs(store.messages, store.threads["1"].messageIDs)
      && MergeNewMessages(store, [m], map["1" := Unchanged], env).Ok?
      && "1" in MergeNewMessages(store, [m], map["1" := Unchanged], env).value.0.threads
      && MergeNewMessages(store, [m], map["1" := Unchanged], env).value.0.threads["1"].messageIDs == ["9", "8"]
      && !SortedIDs(MergeNewMessages(store, [m], map["1" := Unchanged], env).value.0.messages, ["9", "8"])
  {
    NumberIDs();
    var first, second, m := Message("", "local5", "1", 4, Text, ""), Message("8", "", "1", 3, Text, ""), Message("9", "local5", "1", 2, Text, "");
    var store := StoreOf(first, "local5", second, "8");
    ExampleStore(first, "local5", second, "8", env);
    LoneRekey(m, store.messages);
    LoneArrival(store, m, env);
    var inc := Delivery(store, m, env);
    ExampleLists(store, inc, m, "local5", "8", "9", "8");
    LoneMerge(store, m, env);
    TwoIDsSorted(store.messages, "local5", "8");
    ExampleMessages(inc, store, m, "8");
    TwoIDsSorted(MergedMessages(inc, store), "9", "8");
  }

  lemma ExampleMessages(inc: Incoming, store: Store, a: Message, other: string)
    requires inc.arrived == [a] && inc.statuses == map["1" := Unchanged] && a.id != "" && a.id !in inc.rekeys
    requires other in store.messages && store.messages[other].threadID == "1" && other != a.id && other !in inc.rekeys
    ensures var r := MergedMessages(inc, store); a.id in r && r[a.id] == a && other in r && r[other] == store.messages[other]
  {
    assert inc.arrived[..0] == [] && Keyed(inc.arrived[..0]) == map[];
    assert Keyed(inc.arrived) == map[a.id := a];
  }

  /** A held robotext message delivered again with an earlier time: nothing is rekeyed, and the list keeps
      it in front of a message that is now newer. */
  lemma RetimedLosesOrder(env: Env)
    requires OneThreadEnv(env)
    ensures var store := StoreOf(Message("8", "", "1", 5, CreateSidebar, ""), "8", Message("7", "", "1", 4, Text, ""), "7");
      var m := Message("8", "", "1", 3, CreateSidebar, "");
      && WF(store) && DeliveryFits(store, [m], env) && SortedIDs(store.messages, store.threads["1"].messageIDs)
      && MergeNewMessages(store, [m], map["1" := Unchanged], env).Ok?
      && "1" in MergeNewMessages(store, [m], map["1" := Unchanged], env).value.0.threads
      && MergeNewMessages(store, [m], map["1" := Unchanged], env).value.0.threads["1"].messageIDs == ["8", "7"]
      && !SortedIDs(MergeNewMessages(store, [m], map["1" := Unchanged], env).value.0.messages, ["8", "7"])
  {
    NumberIDs();
    var first, second, m := Message("8", "", "1", 5, CreateSidebar, ""), Message("7", "", "1", 4, Text, ""), Message("8", "", "1", 3, CreateSidebar, "");
    var store := StoreOf(first, "8", second, "7");
    ExampleStore(first, "8", second, "7", env);
    LoneRekey(m, store.messages);
    LoneArrival(store, m, env);
    var inc := Delivery(store, m, env);
    ExampleLists(store, inc, m, "8", "7", "8", "7");
    LoneMerge(store, m, env);
    TwoIDsSorted(store.messages, "8", "7");
    ExampleMessages(inc, store, m, "7");
    TwoIDsSorted(MergedMessages(inc, store), "8", "7");
  }
}
