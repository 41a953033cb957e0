/** What `mergeNewMessages` guarantees: no invariant of the code fires, the result has referential
    integrity exactly when no held local copy collides with an already held server copy, and every
    list it sorts is sorted by what the store really holds. */
module MessageMerge {
  import opened Collections
  import opened MessageIds
  import opened MessageModel
  import opened MessageReducer
  import opened MessageIntegrity

  /** What the server and the client's ID allocation promise about delivered messages: they carry
      server IDs, once each; an ID belongs to one thread and a local ID to one message; and only the
      messages that can start a thread are delivered twice with different times. */
  ghost predicate PayloadFits(mine: seq<Message>, stored: map<string, Message>) {
    && (forall m :: m in mine ==> MessageFits(m, stored))
    && (forall i, j :: 0 <= i < j < |mine| ==> mine[i].id != mine[j].id)
    && (forall m, n :: m in mine && n in mine && MatchesLocal(m, stored) && MatchesLocal(n, stored) && m.localID == n.localID ==> m == n)
  }

  ghost predicate MessageFits(m: Message, stored: map<string, Message>) {
    && m.id != "" && !IsLocal(m.id) && (m.localID == "" || IsLocal(m.localID)) && !IsPending(m.threadID)
    && (m.id in stored ==> stored[m.id].threadID == m.threadID)
    && (MatchesLocal(m, stored) ==> stored[m.localID].threadID == m.threadID)
    && (!Composable(m.mtype) && m.id in stored && m.time > stored[m.id].time ==> CanStartThread(m.mtype))
  }

  /** Adopting a delivered message keeps its server ID and thread. */
  lemma AdoptFacts(m: Message, stored: map<string, Message>)
    requires WellKeyed(stored) && MessageFits(m, stored)
    ensures Adopt(m, stored).Ok?
    ensures var a := Adopt(m, stored).value;
      a.id == m.id && a.threadID == m.threadID && GoodIDs(a) && MessageID(a) == m.id
  {
    if m.id in stored {
      assert MessageID(stored[m.id]) == m.id;
    }
  }

  ghost predicate AdoptedAs(m: Message, a: Message) {
    a.id == m.id && a.threadID == m.threadID && GoodIDs(a) && MessageID(a) == m.id
  }

  lemma {:induction false} AdoptAllFacts(mine: seq<Message>, stored: map<string, Message>)
    requires WellKeyed(stored) && forall m :: m in mine ==> MessageFits(m, stored)
    ensures AdoptAll(mine, stored).Ok? && |AdoptAll(mine, stored).value| == |mine|
    ensures forall i :: 0 <= i < |mine| ==> AdoptedAs(mine[i], AdoptAll(mine, stored).value[i])
  {
    if |mine| > 0 {
      AdoptAllFacts(mine[..|mine| - 1], stored);
      assert mine[|mine| - 1] in mine;
      AdoptFacts(mine[|mine| - 1], stored);
    }
  }

  ghost predicate UniqueIDs(infos: seq<Message>) {
    && NoDup(infos)
    && forall a, b :: a in infos && b in infos && MessageID(a) == MessageID(b) ==> a == b
  }

  lemma {:induction false} RekeysFacts(mine: seq<Message>, stored: map<string, Message>)
    requires forall m :: m in mine ==> m.id != ""
    ensures forall l :: l in Rekeys(mine, stored) ==>
      exists m :: m in mine && MatchesLocal(m, stored) && m.localID == l && m.id == Rekeys(mine, stored)[l]
    ensures forall m :: m in mine && MatchesLocal(m, stored) ==> m.localID in Rekeys(mine, stored)
  {
    if |mine| > 0 {
      RekeysFacts(mine[..|mine| - 1], stored);
      assert mine == mine[..|mine| - 1] + [mine[|mine| - 1]];
    }
  }

  /** What the thread loops may rely on. */
  ghost predicate IncomingFits(inc: Incoming, u: Store) {
    && UniqueIDs(inc.arrived)
    && (forall m :: m in inc.arrived ==> m.id != "" && GoodIDs(m))
    && (forall m :: m in inc.arrived && m.id in u.messages ==> u.messages[m.id].threadID == m.threadID)
    && (forall l :: l in inc.rekeys ==> RekeyFits(l, inc.rekeys[l], inc.arrived, u))
    && (forall l, k :: l in inc.rekeys && k in inc.rekeys && inc.rekeys[l] == inc.rekeys[k] ==> l == k)
  }

  lemma AdoptedUnique(mine: seq<Message>, stored: map<string, Message>)
    requires WellKeyed(stored) && PayloadFits(mine, stored)
    ensures AdoptAll(mine, stored).Ok? && UniqueIDs(AdoptAll(mine, stored).value)
    ensures forall m :: m in mine ==> exists a :: a in AdoptAll(mine, stored).value && AdoptedAs(m, a)
    ensures forall a :: a in AdoptAll(mine, stored).value ==> exists m :: m in mine && AdoptedAs(m, a)
  {
    AdoptAllFacts(mine, stored);
    AdoptedDistinct(mine, AdoptAll(mine, stored).value);
    AdoptedEach(mine, AdoptAll(mine, stored).value);
  }

  lemma AdoptedDistinct(mine: seq<Message>, r: seq<Message>)
    requires |r| == |mine| && forall i :: 0 <= i < |mine| ==> AdoptedAs(mine[i], r[i])
    requires forall i, j :: 0 <= i < j < |mine| ==> mine[i].id != mine[j].id
    ensures UniqueIDs(r)
  {
    forall i, j | 0 <= i < j < |r|
      ensures MessageID(r[i]) != MessageID(r[j])
    {
      assert AdoptedAs(mine[i], r[i]) && AdoptedAs(mine[j], r[j]);
    }
  }

  lemma AdoptedEach(mine: seq<Message>, r: seq<Message>)
    requires |r| == |mine| && forall i :: 0 <= i < |mine| ==> AdoptedAs(mine[i], r[i])
    ensures forall m :: m in mine ==> exists a :: a in r && AdoptedAs(m, a)
    ensures forall a :: a in r ==> exists m :: m in mine && AdoptedAs(m, a)
  {
    forall m | m in mine
      ensures exists a :: a in r && AdoptedAs(m, a)
    {
      var i :| 0 <= i < |mine| && mine[i] == m;
      assert AdoptedAs(m, r[i]);
    }
  }

  /** A rekeyed local ID is held, and its message arrived under the new ID in the same thread. */
  ghost predicate RekeyFits(l: string, id: string, arrived: seq<Message>, u: Store) {
    l in u.messages && IsLocal(l) && exists m :: m in arrived && m.id == id && m.threadID == u.messages[l].threadID
  }

  lemma RekeysFit(mine: seq<Message>, arrived: seq<Message>, u: Store)
    requires PayloadFits(mine, u.messages)
    requires forall m :: m in mine ==> exists a :: a in arrived && AdoptedAs(m, a)
    ensures var rekeys := Rekeys(mine, u.messages);
      && (forall l :: l in rekeys ==> RekeyFits(l, rekeys[l], arrived, u))
      && forall l, k :: l in rekeys && k in rekeys && rekeys[l] == rekeys[k] ==> l == k
  {
    var rekeys := Rekeys(mine, u.messages);
    RekeysFacts(mine, u.messages);
    forall l | l in rekeys
      ensures RekeyFits(l, rekeys[l], arrived, u)
    {
      var m :| m in mine && MatchesLocal(m, u.messages) && m.localID == l && m.id == rekeys[l];
      assert MessageFits(m, u.messages);
      var a :| a in arrived && AdoptedAs(m, a);
    }
    forall l, k | l in rekeys && k in rekeys && rekeys[l] == rekeys[k]
      ensures l == k
    {
      var m :| m in mine && MatchesLocal(m, u.messages) && m.localID == l && m.id == rekeys[l];
      var n :| n in mine && MatchesLocal(n, u.messages) && n.localID == k && n.id == rekeys[k];
      var i :| 0 <= i < |mine| && mine[i] == m;
      var j :| 0 <= j < |mine| && mine[j] == n;
      assert i == j;
    }
  }

  lemma UniqueIDsPermutation(a: seq<Message>, b: seq<Message>)
    requires UniqueIDs(a) && multiset(a) == multiset(b)
    ensures UniqueIDs(b)
  {
    PermutationNoDup(a, b);
  }

  lemma IncomingOfFits(mine: seq<Message>, u: Store, inc: Incoming)
    requires WellKeyed(u.messages) && PayloadFits(mine, u.messages)
    requires AdoptAll(mine, u.messages).Ok? ==> inc.arrived == SortMessageInfos(AdoptAll(mine, u.messages).value)
    requires inc.rekeys == Rekeys(mine, u.messages)
    ensures AdoptAll(mine, u.messages).Ok? && AllHaveID(AdoptAll(mine, u.messages).value)
    ensures IncomingFits(inc, u)
  {
    AdoptedUnique(mine, u.messages);
    UniqueIDsPermutation(AdoptAll(mine, u.messages).value, inc.arrived);
    RekeysFit(mine, inc.arrived, u);
    forall m | m in inc.arrived
      ensures m.id != "" && GoodIDs(m) && (m.id in u.messages ==> u.messages[m.id].threadID == m.threadID)
    {
      var n :| n in mine && AdoptedAs(n, m);
      assert MessageFits(n, u.messages);
    }
  }

  // ----- lists -----

  lemma {:induction false} GroupNoDup(infos: seq<Message>, t: string)
    requires UniqueIDs(infos)
    ensures NoDup(Group(infos, t))
  {
    if |infos| > 0 {
      var front, last := infos[..|infos| - 1], infos[|infos| - 1];
      assert infos == front + [last];
      assert last !in front;
      GroupNoDup(front, t);
      forall m | m in front
        ensures MessageID(m) != MessageID(last)
      {
        assert m in infos && last in infos;
      }
      assert MessageID(last) !in Group(front, t);
    }
  }

  /** A held list, after rekeying, minus the delivered IDs: held IDs that were not rekeyed, once each. */
  lemma {:induction false} KeptFacts(ids: seq<string>, rekeys: map<string, string>, group: seq<string>)
    requires NoDup(ids)
    requires forall l :: l in ids && l in rekeys ==> rekeys[l] in group
    ensures var kept := Difference(RekeyedIDs(ids, rekeys), group);
      NoDup(kept) && forall id :: id in kept <==> id in ids && id !in rekeys && id !in group
  {
    if |ids| > 0 {
      var front, last := ids[..|ids| - 1], ids[|ids| - 1];
      assert ids == front + [last];
      KeptFacts(front, rekeys, group);
      var all := RekeyedIDs(ids, rekeys);
      assert all[..|all| - 1] == RekeyedIDs(front, rekeys);
      assert last in ids;
    }
  }

  /** A local copy in the list is rekeyed to a server ID the list already has. */
  ghost predicate Collides(ids: seq<string>, rekeys: map<string, string>) {
    exists l :: l in ids && l in rekeys && rekeys[l] in ids
  }

  lemma RekeyedNoDupIff(ids: seq<string>, rekeys: map<string, string>)
    requires NoDup(ids)
    requires forall l, k :: l in rekeys && k in rekeys && rekeys[l] == rekeys[k] ==> l == k
    requires forall l :: l in rekeys ==> rekeys[l] !in rekeys
    ensures NoDup(RekeyedIDs(ids, rekeys)) <==> !Collides(ids, rekeys)
  {
    var r := RekeyedIDs(ids, rekeys);
    if Collides(ids, rekeys) {
      var l :| l in ids && l in rekeys && rekeys[l] in ids;
      var i :| 0 <= i < |ids| && ids[i] == l;
      var j :| 0 <= j < |ids| && ids[j] == rekeys[l];
      assert r[i] == r[j] && i != j;
    } else {
      forall i, j | 0 <= i < j < |r|
        ensures r[i] != r[j]
      {
        assert ids[i] in ids && ids[j] in ids;
      }
    }
  }

  // ----- the replayed messages -----

  ghost predicate Dropped(inc: Incoming, u: Store, t: string) {
    t in GroupKeys(inc.arrived) && t in u.threads && IsTruncated(inc, t)
  }

  /** The stored messages without the truncated threads, overwritten by the delivered ones, without the
      rekeyed local copies. */
  ghost function MergedMessages(inc: Incoming, u: Store): map<string, Message> {
    (Undropped(inc, u) + Keyed(inc.arrived)) - inc.rekeys.Keys
  }

  ghost function Undropped(inc: Incoming, u: Store): map<string, Message> {
    map k | k in u.messages && !Dropped(inc, u, u.messages[k].threadID) :: u.messages[k]
  }

  lemma {:induction false} TruncateReplay(inc: Incoming, u: Store, messages: map<string, Message>, order: seq<string>)
    ensures var r := Replay(messages, TruncateOps(inc, u, order));
      && (forall k :: k in r <==> k in messages && !TruncatedIn(inc, u, order, messages[k].threadID))
      && forall k :: k in r ==> r[k] == messages[k]
  {
    if |order| > 0 {
      var front, t := order[..|order| - 1], order[|order| - 1];
      assert order == front + [t];
      TruncateReplay(inc, u, messages, front);
      if t in u.threads && IsTruncated(inc, t) {
        ReplayLast(messages, TruncateOps(inc, u, front), RemoveForThreads([t]));
      }
    }
  }

  ghost predicate TruncatedIn(inc: Incoming, u: Store, order: seq<string>, t: string) {
    t in order && t in u.threads && IsTruncated(inc, t)
  }

  lemma {:induction false} ReplaceReplay(messages: map<string, Message>, newMessages: map<string, Message>, order: seq<string>)
    requires forall k :: k in order ==> k in newMessages
    ensures var r := Replay(messages, ReplaceOps(newMessages, order));
      && (forall k :: k in r <==> k in messages || k in order)
      && (forall k :: k in order ==> r[k] == newMessages[k])
      && forall k :: k in messages && k !in order ==> r[k] == messages[k]
  {
    if |order| > 0 {
      var front, k := order[..|order| - 1], order[|order| - 1];
      assert order == front + [k];
      ReplaceReplay(messages, newMessages, front);
      assert ReplaceOps(newMessages, order) == ReplaceOps(newMessages, front) + [Replace(k, newMessages[k])];
      ReplayLast(messages, ReplaceOps(newMessages, front), Replace(k, newMessages[k]));
    } else {
      assert ReplaceOps(newMessages, order) == [];
    }
  }

  lemma RemoveReplay(messages: map<string, Message>, rekeys: map<string, string>, env: Env)
    requires Enumerates(env.keys(rekeys.Keys), rekeys.Keys)
    ensures Replay(messages, RemoveOps(rekeys, env)) == messages - rekeys.Keys
  {
    var c := RemoveOps(rekeys, env);
    if rekeys != map[] {
      assert c[..0] == [];
      assert Replay(messages, c) == Apply(messages, c[0]);
    }
  }

  lemma UndroppedReplay(inc: Incoming, u: Store, groups: seq<string>)
    requires Enumerates(groups, GroupKeys(inc.arrived))
    ensures Replay(u.messages, TruncateOps(inc, u, groups)) == Undropped(inc, u)
  {
    TruncateReplay(inc, u, u.messages, groups);
    assert forall t :: TruncatedIn(inc, u, groups, t) <==> Dropped(inc, u, t);
  }

  lemma ArrivedReplay(messages: map<string, Message>, arrived: map<string, Message>, ids: seq<string>)
    requires Enumerates(ids, arrived.Keys)
    ensures Replay(messages, ReplaceOps(arrived, ids)) == messages + arrived
  {
    ReplaceReplay(messages, arrived, ids);
  }

  /** Replaying the merge's operations, in whatever order keys are visited, gives the merged messages. */
  lemma MergeOpsReplay(inc: Incoming, u: Store, env: Env)
    requires ValidEnv(env)
    ensures Replay(u.messages, MergeOps(inc, u, env)) == MergedMessages(inc, u)
  {
    var groups, ids := env.keys(GroupKeys(inc.arrived)), env.keys(Keyed(inc.arrived).Keys);
    assert Enumerates(groups, GroupKeys(inc.arrived)) && Enumerates(ids, Keyed(inc.arrived).Keys);
    assert Enumerates(env.keys(inc.rekeys.Keys), inc.rekeys.Keys);
    var ab := TruncateOps(inc, u, groups) + ReplaceOps(Keyed(inc.arrived), ids);
    ReplayConcat(u.messages, ab, RemoveOps(inc.rekeys, env));
    ReplayConcat(u.messages, TruncateOps(inc, u, groups), ReplaceOps(Keyed(inc.arrived), ids));
    UndroppedReplay(inc, u, groups);
    ArrivedReplay(Undropped(inc, u), Keyed(inc.arrived), ids);
    RemoveReplay(Replay(u.messages, ab), inc.rekeys, env);
  }

  // ----- what each list holds afterwards -----

  lemma KeptStored(inc: Incoming, u: Store, t: string)
    requires WF(u) && IncomingFits(inc, u)
    requires t in GroupKeys(inc.arrived) || t in u.threads
    ensures NoDup(KeptIDs(inc, u, t))
    ensures forall id :: id in KeptIDs(inc, u, t) ==>
      id in u.messages && u.messages[id].threadID == t && id !in Group(inc.arrived, t)
      && id in MergedMessages(inc, u) && MergedMessages(inc, u)[id] == u.messages[id]
  {
    if t in u.threads {
      HeldFacts(inc, u, t);
      if t in GroupKeys(inc.arrived) && !IsTruncated(inc, t) {
        KeptFacts(u.threads[t].messageIDs, inc.rekeys, Group(inc.arrived, t));
      }
    }
  }

  /** Of a thread's held IDs, those that are rekeyed or delivered again are in its delivered group. */
  lemma HeldFacts(inc: Incoming, u: Store, t: string)
    requires WF(u) && IncomingFits(inc, u) && t in u.threads
    ensures forall l :: l in u.threads[t].messageIDs && l in inc.rekeys ==> inc.rekeys[l] in Group(inc.arrived, t)
    ensures forall id :: id in u.threads[t].messageIDs && id in Keyed(inc.arrived) ==> id in Group(inc.arrived, t)
  {
    var ids := u.threads[t].messageIDs;
    forall l | l in ids && l in inc.rekeys
      ensures inc.rekeys[l] in Group(inc.arrived, t)
    {
      assert RekeyFits(l, inc.rekeys[l], inc.arrived, u);
    }
    forall m | m in inc.arrived && MessageID(m) in ids
      ensures m.threadID == t
    {
      assert MessageID(m) == m.id;
    }
  }

  /** Rekeying goes from local to server IDs. */
  lemma RekeyShape(inc: Incoming, u: Store)
    requires IncomingFits(inc, u)
    ensures forall l :: l in inc.rekeys ==> IsLocal(l) && !IsLocal(inc.rekeys[l])
  {
    forall l | l in inc.rekeys
      ensures IsLocal(l) && !IsLocal(inc.rekeys[l])
    {
      assert RekeyFits(l, inc.rekeys[l], inc.arrived, u);
    }
  }

  lemma GroupStored(inc: Incoming, u: Store, t: string)
    requires IncomingFits(inc, u)
    ensures forall id :: id in Group(inc.arrived, t) ==>
      id in MergedMessages(inc, u) && MergedMessages(inc, u)[id].threadID == t && MergedMessages(inc, u)[id] in inc.arrived && !IsLocal(id)
  {
    RekeyShape(inc, u);
    forall id | id in Group(inc.arrived, t)
      ensures id in MergedMessages(inc, u) && MergedMessages(inc, u)[id].threadID == t && MergedMessages(inc, u)[id] in inc.arrived && !IsLocal(id)
    {
      var m :| m in inc.arrived && m.threadID == t && MessageID(m) == id;
      assert Keyed(inc.arrived)[id] == m;
    }
  }

  lemma MergedWellKeyed(inc: Incoming, u: Store)
    requires WF(u) && IncomingFits(inc, u)
    ensures WellKeyed(MergedMessages(inc, u))
  {
  }

  ghost predicate ScratchSound(scratch: map<string, Message>, stored: map<string, Message>) {
    forall id :: id in scratch ==> id in stored && scratch[id] == stored[id]
  }

  ghost predicate ScratchCovers(scratch: map<string, Message>, inc: Incoming, u: Store) {
    forall t, id :: t in GroupKeys(inc.arrived) && (id in Group(inc.arrived, t) || id in KeptIDs(inc, u, t)) ==> id in scratch
  }

  ghost predicate ScratchFits(scratch: map<string, Message>, inc: Incoming, u: Store) {
    ScratchSound(scratch, MergedMessages(inc, u)) && ScratchCovers(scratch, inc, u)
  }

  /** A message that the scratch map is made from. */
  ghost predicate Gathered(inc: Incoming, u: Store, order: seq<string>, m: Message) {
    m in inc.arrived || m in Combined(inc, u, order)
  }

  lemma GatheredStored(inc: Incoming, u: Store, order: seq<string>, m: Message)
    requires WF(u) && IncomingFits(inc, u) && (forall t :: t in order ==> t in GroupKeys(inc.arrived) || t in u.threads)
    requires Gathered(inc, u, order, m)
    ensures MessageID(m) in MergedMessages(inc, u) && MergedMessages(inc, u)[MessageID(m)] == m
  {
    if m in inc.arrived {
      GroupStored(inc, u, m.threadID);
      assert MessageID(m) in Group(inc.arrived, m.threadID);
    } else {
      CombinedMembers(inc, u, order);
      var t, id :| t in order && id in KeptIDs(inc, u, t) && id in u.messages && u.messages[id] == m;
      KeptStored(inc, u, t);
    }
  }

  /** Every listed message is gathered. */
  lemma ListedGathered(inc: Incoming, u: Store, order: seq<string>, t: string, id: string) returns (m: Message)
    requires WF(u) && IncomingFits(inc, u) && t in GroupKeys(inc.arrived) && t in order
    requires forall t :: t in order ==> t in GroupKeys(inc.arrived) || t in u.threads
    requires id in Group(inc.arrived, t) || id in KeptIDs(inc, u, t)
    ensures Gathered(inc, u, order, m) && MessageID(m) == id
  {
    if id in KeptIDs(inc, u, t) {
      KeptStored(inc, u, t);
      CombinedMembers(inc, u, order);
      m := u.messages[id];
    } else {
      m :| m in inc.arrived && m.threadID == t && MessageID(m) == id;
    }
  }

  lemma OrderCovers(inc: Incoming, u: Store, env: Env)
    requires ValidEnv(env)
    ensures forall t :: t in VisitOrder(inc, u, env) ==> t in GroupKeys(inc.arrived) || t in u.threads
    ensures forall t :: t in GroupKeys(inc.arrived) ==> t in VisitOrder(inc, u, env)
  {
    assert Enumerates(env.keys(GroupKeys(inc.arrived)), GroupKeys(inc.arrived));
    assert Enumerates(env.keys(u.threads.Keys), u.threads.Keys);
  }

  ghost predicate OrderFits(inc: Incoming, u: Store, order: seq<string>) {
    && (forall t :: t in order ==> t in GroupKeys(inc.arrived) || t in u.threads)
    && forall t :: t in GroupKeys(inc.arrived) ==> t in order
  }

  /** The messages gathered in this order. */
  function Gathering(inc: Incoming, u: Store, order: seq<string>): seq<Message>
    requires OrderFits(inc, u, order)
  {
    inc.arrived + Combined(inc, u, order)
  }

  ghost predicate StoredAs(all: seq<Message>, stored: map<string, Message>) {
    forall m :: m in all ==> MessageID(m) in stored && stored[MessageID(m)] == m
  }

  lemma GatheringStored(inc: Incoming, u: Store, order: seq<string>)
    requires WF(u) && IncomingFits(inc, u) && OrderFits(inc, u, order)
    ensures StoredAs(Gathering(inc, u, order), MergedMessages(inc, u))
  {
    var stored := MergedMessages(inc, u);
    forall m | m in Gathering(inc, u, order)
      ensures MessageID(m) in stored && stored[MessageID(m)] == m
    {
      GatheredStored(inc, u, order, m);
    }
  }

  ghost predicate HasMessage(all: seq<Message>, id: string) {
    exists m :: m in all && MessageID(m) == id
  }

  ghost predicate CoversListed(all: seq<Message>, inc: Incoming, u: Store) {
    forall t, id :: t in GroupKeys(inc.arrived) && (id in Group(inc.arrived, t) || id in KeptIDs(inc, u, t)) ==> HasMessage(all, id)
  }

  lemma GatheringCovers(inc: Incoming, u: Store, order: seq<string>)
    requires WF(u) && IncomingFits(inc, u) && OrderFits(inc, u, order)
    ensures CoversListed(Gathering(inc, u, order), inc, u)
  {
    var all := Gathering(inc, u, order);
    forall t, id | t in GroupKeys(inc.arrived) && (id in Group(inc.arrived, t) || id in KeptIDs(inc, u, t))
      ensures HasMessage(all, id)
    {
      var m := ListedGathered(inc, u, order, t, id);
      assert m in all;
    }
  }

  /** Messages that a map stores under their IDs, keyed after sorting. */
  lemma SortedSound(all: seq<Message>, stored: map<string, Message>)
    requires StoredAs(all, stored)
    ensures ScratchSound(Keyed(SortMessageInfos(all)), stored)
  {
  }

  ghost predicate HasAll(scratch: map<string, Message>, all: seq<Message>) {
    forall id :: HasMessage(all, id) ==> id in scratch
  }

  lemma SortedHasAll(all: seq<Message>)
    ensures HasAll(Keyed(SortMessageInfos(all)), all)
  {
  }

  lemma HasAllCovers(scratch: map<string, Message>, all: seq<Message>, inc: Incoming, u: Store)
    requires HasAll(scratch, all) && CoversListed(all, inc, u)
    ensures ScratchCovers(scratch, inc, u)
  {
  }

  /** The scratch map the sort reads agrees with the replayed map wherever it is defined, and is defined
      on every list the merge builds. */
  lemma ScratchAgrees(inc: Incoming, u: Store, env: Env)
    requires ValidEnv(env) && WF(u) && IncomingFits(inc, u)
    ensures ScratchFits(Scratch(inc, u, env), inc, u)
  {
    OrderCovers(inc, u, env);
    var order := VisitOrder(inc, u, env);
    GatheringStored(inc, u, order);
    GatheringCovers(inc, u, order);
    SortedSound(Gathering(inc, u, order), MergedMessages(inc, u));
    SortedHasAll(Gathering(inc, u, order));
    HasAllCovers(Scratch(inc, u, env), Gathering(inc, u, order), inc, u);
  }

  lemma ResortedValue(inc: Incoming, u: Store, scratch: map<string, Message>, t: string)
    requires NeedsResort(inc, u, t)
    requires forall id :: id in KeptIDs(inc, u, t) ==> id in u.messages
    requires forall id :: id in Group(inc.arrived, t) + KeptIDs(inc, u, t) ==> id in scratch
    ensures FinalThread(inc, u, scratch, t).Ok?
    ensures FinalThread(inc, u, scratch, t).value.messageIDs == SortMessageIDs(scratch, Group(inc.arrived, t) + KeptIDs(inc, u, t)).value
  {
    var merged := MergedThread(inc, u, t);
    assert merged.Ok? && merged.value.messageIDs == Group(inc.arrived, t) + KeptIDs(inc, u, t);
  }

  /** The branch that mixes delivered and held IDs: its sort reads what the store will hold. */
  lemma ResortedThread(inc: Incoming, u: Store, scratch: map<string, Message>, t: string)
    requires WF(u) && IncomingFits(inc, u) && ScratchFits(scratch, inc, u)
    requires NeedsResort(inc, u, t)
    ensures FinalThread(inc, u, scratch, t).Ok?
    ensures var ids := FinalThread(inc, u, scratch, t).value.messageIDs;
      && SortedIDs(MergedMessages(inc, u), ids)
      && NoDup(ids)
      && forall id :: id in ids <==> id in Group(inc.arrived, t) || id in KeptIDs(inc, u, t)
  {
    var group, kept := Group(inc.arrived, t), KeptIDs(inc, u, t);
    KeptStored(inc, u, t);
    GroupNoDup(inc.arrived, t);
    NoDupConcat(group, kept);
    SortMessageIDsSorts(scratch, group + kept);
    ResortedValue(inc, u, scratch, t);
    SortedInLargerMap(scratch, MergedMessages(inc, u), SortMessageIDs(scratch, group + kept).value);
  }

  /** The merge keeps all delivered IDs of a thread and the held IDs that were not rekeyed, and nothing
      else; the `could not find` invariant and the sort never fail. */
  lemma FinalThreadMembers(inc: Incoming, u: Store, scratch: map<string, Message>, t: string)
    requires WF(u) && IncomingFits(inc, u) && ScratchFits(scratch, inc, u)
    requires t in GroupKeys(inc.arrived) || t in u.threads
    ensures FinalThread(inc, u, scratch, t).Ok?
    ensures var ids := FinalThread(inc, u, scratch, t).value.messageIDs;
      && (forall id :: id in ids <==> id in Group(inc.arrived, t) || id in KeptIDs(inc, u, t))
      && (NoDup(ids) <==> !StaleCopy(inc, u, t))
  {
    if NeedsResort(inc, u, t) {
      ResortedThread(inc, u, scratch, t);
    } else if t !in GroupKeys(inc.arrived) {
      UndeliveredMembers(inc, u, scratch, t);
    } else if t in u.threads && !IsTruncated(inc, t) {
      KeptThreadMembers(inc, u, scratch, t);
    } else {
      ReplacedMembers(inc, u, scratch, t);
    }
  }

  lemma UndeliveredMembers(inc: Incoming, u: Store, scratch: map<string, Message>, t: string)
    requires WF(u) && t !in GroupKeys(inc.arrived) && t in u.threads
    ensures FinalThread(inc, u, scratch, t).Ok?
    ensures var ids := FinalThread(inc, u, scratch, t).value.messageIDs;
      && (forall id :: id in ids <==> id in Group(inc.arrived, t) || id in KeptIDs(inc, u, t))
      && (NoDup(ids) <==> !StaleCopy(inc, u, t))
  {
    NothingArrived(inc, t);
  }

  lemma ReplacedMembers(inc: Incoming, u: Store, scratch: map<string, Message>, t: string)
    requires IncomingFits(inc, u) && t in GroupKeys(inc.arrived) && (t !in u.threads || IsTruncated(inc, t))
    ensures FinalThread(inc, u, scratch, t).Ok?
    ensures var ids := FinalThread(inc, u, scratch, t).value.messageIDs;
      && (forall id :: id in ids <==> id in Group(inc.arrived, t) || id in KeptIDs(inc, u, t))
      && (NoDup(ids) <==> !StaleCopy(inc, u, t))
  {
    GroupNoDup(inc.arrived, t);
  }

  lemma KeptThreadMembers(inc: Incoming, u: Store, scratch: map<string, Message>, t: string)
    requires WF(u) && IncomingFits(inc, u)
    requires t in GroupKeys(inc.arrived) && t in u.threads && !IsTruncated(inc, t) && !NeedsResort(inc, u, t)
    ensures FinalThread(inc, u, scratch, t).Ok?
    ensures var ids := FinalThread(inc, u, scratch, t).value.messageIDs;
      && (forall id :: id in ids <==> id in Group(inc.arrived, t) || id in KeptIDs(inc, u, t))
      && (NoDup(ids) <==> !StaleCopy(inc, u, t))
  {
    KeptStored(inc, u, t);
    UnsortedThread(inc, u, t);
    UnsortedValue(inc, u, scratch, t);
  }

  lemma UnsortedValue(inc: Incoming, u: Store, scratch: map<string, Message>, t: string)
    requires t in GroupKeys(inc.arrived) && t in u.threads && !IsTruncated(inc, t) && !NeedsResort(inc, u, t)
    requires forall id :: id in KeptIDs(inc, u, t) ==> id in u.messages
    ensures FinalThread(inc, u, scratch, t).Ok?
    ensures FinalThread(inc, u, scratch, t).value.messageIDs == OldIDs(inc, u, t)
  {
  }

  lemma NothingArrived(inc: Incoming, t: string)
    requires t !in GroupKeys(inc.arrived)
    ensures forall id :: id !in Group(inc.arrived, t)
  {
    assert forall m :: m in inc.arrived ==> m.threadID in GroupKeys(inc.arrived);
  }

  lemma FinalThreadListed(inc: Incoming, u: Store, scratch: map<string, Message>, t: string)
    requires WF(u) && IncomingFits(inc, u) && ScratchFits(scratch, inc, u)
    requires t in GroupKeys(inc.arrived) || t in u.threads
    ensures FinalThread(inc, u, scratch, t).Ok?
    ensures Listed(FinalThread(inc, u, scratch, t).value.messageIDs, MergedMessages(inc, u), t)
  {
    FinalThreadMembers(inc, u, scratch, t);
    KeptStored(inc, u, t);
    GroupStored(inc, u, t);
  }

  /** The branch that keeps the held list without sorting it: everything delivered was held. */
  lemma UnsortedThread(inc: Incoming, u: Store, t: string)
    requires WF(u) && IncomingFits(inc, u)
    requires t in GroupKeys(inc.arrived) && t in u.threads && !IsTruncated(inc, t) && !NeedsResort(inc, u, t)
    ensures Listed(OldIDs(inc, u, t), MergedMessages(inc, u), t)
    ensures NoDup(OldIDs(inc, u, t)) <==> !StaleCopy(inc, u, t)
    ensures forall id :: id in OldIDs(inc, u, t) <==> id in Group(inc.arrived, t) || id in KeptIDs(inc, u, t)
  {
    var ids, held := u.threads[t].messageIDs, OldIDs(inc, u, t);
    KeptStored(inc, u, t);
    GroupStored(inc, u, t);
    RekeyShape(inc, u);
    RekeyedNoDupIff(ids, inc.rekeys);
    assert forall id :: id in Group(inc.arrived, t) && id !in held ==> id in Difference(Group(inc.arrived, t), held);
  }

  lemma SortedInLargerMap(scratch: map<string, Message>, messages: map<string, Message>, ids: seq<string>)
    requires SortedIDs(scratch, ids)
    requires forall id :: id in scratch ==> id in messages && messages[id] == scratch[id]
    ensures SortedIDs(messages, ids)
  {
    forall i | 0 <= i < |ids|
      ensures IDRank(messages, ids[i], MaxLengths(ids)) == IDRank(scratch, ids[i], MaxLengths(ids))
    {
      assert ids[i] in ids;
    }
  }

  /** A delivered message is held twice, under its server ID and under its local ID, and the thread gets
      nothing it did not hold: the one case in which the list comes out with a repeated ID. */
  ghost predicate StaleCopy(inc: Incoming, u: Store, t: string) {
    && t in GroupKeys(inc.arrived) && t in u.threads && !IsTruncated(inc, t) && !NeedsResort(inc, u, t)
    && Collides(u.threads[t].messageIDs, inc.rekeys)
  }

  lemma MergeIncomingValue(inc: Incoming, u: Store, env: Env)
    requires ValidEnv(env) && FinalThreads(inc, u, Scratch(inc, u, env)).Ok?
    ensures MergeIncoming(inc, u, env).Ok?
    ensures MergeIncoming(inc, u, env).value.threads == FinalThreads(inc, u, Scratch(inc, u, env)).value
    ensures MergeIncoming(inc, u, env).value.messages == Replay(u.messages, MergeOps(inc, u, env))
  {
  }

  /** The store the merge returns, thread by thread. */
  lemma MergeIncomingResult(inc: Incoming, u: Store, env: Env)
    requires ValidEnv(env) && WF(u) && IncomingFits(inc, u)
    ensures MergeIncoming(inc, u, env).Ok? && ScratchFits(Scratch(inc, u, env), inc, u)
    ensures var r := MergeIncoming(inc, u, env).value;
      && r.messages == MergedMessages(inc, u)
      && r.threads.Keys == GroupKeys(inc.arrived) + u.threads.Keys
      && forall t :: t in r.threads ==> FinalThread(inc, u, Scratch(inc, u, env), t) == Ok(r.threads[t])
  {
    ScratchAgrees(inc, u, env);
    FinalThreadsOk(inc, u, Scratch(inc, u, env));
    MergeIncomingValue(inc, u, env);
    MergeOpsReplay(inc, u, env);
  }

  lemma FinalThreadsOk(inc: Incoming, u: Store, scratch: map<string, Message>)
    requires WF(u) && IncomingFits(inc, u) && ScratchFits(scratch, inc, u)
    ensures FinalThreads(inc, u, scratch).Ok?
    ensures var r := FinalThreads(inc, u, scratch).value;
      && r.Keys == GroupKeys(inc.arrived) + u.threads.Keys
      && forall t :: t in r ==> FinalThread(inc, u, scratch, t) == Ok(r[t])
  {
    forall t | t in GroupKeys(inc.arrived) + u.threads.Keys
      ensures FinalThread(inc, u, scratch, t).Ok?
    {
      FinalThreadMembers(inc, u, scratch, t);
    }
  }

  /** The merge never throws, and its result has integrity exactly when no thread holds a stale copy. */
  lemma MergeIncomingIntegrity(inc: Incoming, u: Store, env: Env)
    requires ValidEnv(env) && WF(u) && IncomingFits(inc, u)
    ensures MergeIncoming(inc, u, env).Ok?
    ensures WF(MergeIncoming(inc, u, env).value) <==> forall t :: t in u.threads ==> !StaleCopy(inc, u, t)
  {
    MergeIncomingResult(inc, u, env);
    var r := MergeIncoming(inc, u, env).value;
    MergedWellKeyed(inc, u);
    forall t | t in r.threads
      ensures Listed(r.threads[t].messageIDs, r.messages, t)
      ensures NoDup(r.threads[t].messageIDs) <==> !StaleCopy(inc, u, t)
    {
      FinalThreadMembers(inc, u, Scratch(inc, u, env), t);
      FinalThreadListed(inc, u, Scratch(inc, u, env), t);
    }
  }
}
