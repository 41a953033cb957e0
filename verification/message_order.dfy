/** When lists are in descending (time, padded ID) order after a merge: always where the reducer sorts
    them, and under an exact condition where it only rekeys them. */
module MessageOrder {
  import opened Collections
  import opened MessageIds
  import opened MessageModel
  import opened MessageReducer
  import opened MessageIntegrity
  import opened MessageMerge
  import opened MessageRuns

  // ----- sorted lists, pair by pair -----

  /** a may stand before b. */
  ghost predicate InOrder(messages: map<string, Message>, a: string, b: string)
    requires a in messages && b in messages
  {
    var lengths := MaxLengths([a, b]);
    !RankLess(IDRank(messages, a, lengths), IDRank(messages, b, lengths))
  }

  lemma InOrderAtAnyWidth(messages: map<string, Message>, a: string, b: string, lengths: Lengths)
    requires a in messages && b in messages && Comparable(a, b) && Fits(a, lengths) && Fits(b, lengths)
    ensures InOrder(messages, a, b) <==> !RankLess(IDRank(messages, a, lengths), IDRank(messages, b, lengths))
  {
    var ids := [a, b];
    assert ids[0] in ids && ids[1] in ids;
    OrderIgnoresWidth(a, b, MaxLengths(ids), lengths);
  }

  ghost predicate AllComparable(ids: seq<string>) {
    forall a, b :: a in ids && b in ids ==> Comparable(a, b)
  }

  /** A list is sorted exactly when each ID may stand before the next. */
  lemma SortedByNeighbours(messages: map<string, Message>, ids: seq<string>)
    requires AllComparable(ids) && forall id :: id in ids ==> id in messages
    ensures SortedIDs(messages, ids) <==> forall i :: 0 <= i < |ids| - 1 ==> InOrder(messages, ids[i], ids[i + 1])
  {
    var lengths := MaxLengths(ids);
    forall i | 0 <= i < |ids| - 1
      ensures InOrder(messages, ids[i], ids[i + 1])
         <==> !RankLess(IDRank(messages, ids[i], lengths), IDRank(messages, ids[i + 1], lengths))
    {
      assert ids[i] in ids && ids[i + 1] in ids;
      InOrderAtAnyWidth(messages, ids[i], ids[i + 1], lengths);
    }
    if forall i :: 0 <= i < |ids| - 1 ==> InOrder(messages, ids[i], ids[i + 1]) {
      forall i, j | 0 <= i < j < |ids|
        ensures !RankLess(IDRank(messages, ids[i], lengths), IDRank(messages, ids[j], lengths))
      {
        NeighboursChain(messages, ids, lengths, i, j);
      }
    }
  }

  lemma {:induction false} NeighboursChain(messages: map<string, Message>, ids: seq<string>, lengths: Lengths, i: nat, j: nat)
    requires i < j < |ids| && forall id :: id in ids ==> id in messages
    requires forall k :: 0 <= k < |ids| - 1 ==> !RankLess(IDRank(messages, ids[k], lengths), IDRank(messages, ids[k + 1], lengths))
    ensures !RankLess(IDRank(messages, ids[i], lengths), IDRank(messages, ids[j], lengths))
  {
    if i + 1 < j {
      NeighboursChain(messages, ids, lengths, i, j - 1);
      var k := j - 1;
      assert !RankLess(IDRank(messages, ids[k], lengths), IDRank(messages, ids[k + 1], lengths));
      RankLessNegTransitive(IDRank(messages, ids[i], lengths), IDRank(messages, ids[k], lengths), IDRank(messages, ids[j], lengths));
    }
  }

  // ----- the branch that does not sort -----

  /** The merge keeps the held list of t, with local IDs replaced: nothing delivered is new to it. */
  predicate OnlyRekeyed(inc: Incoming, u: Store, t: string) {
    t in GroupKeys(inc.arrived) && t in u.threads && !IsTruncated(inc, t) && !NeedsResort(inc, u, t)
  }

  /** Position i holds another ID than before, or a message of another time. */
  ghost predicate ChangedAt(before: map<string, Message>, after: map<string, Message>, held: seq<string>, ids: seq<string>, i: int)
    requires |held| == |ids| && 0 <= i < |ids| && held[i] in before && ids[i] in after
  {
    held[i] != ids[i] || before[held[i]].time != after[ids[i]].time
  }

  /** Each changed position still fits between its neighbours. */
  ghost predicate ChangesFit(before: map<string, Message>, after: map<string, Message>, held: seq<string>, ids: seq<string>)
    requires |held| == |ids| && (forall id :: id in held ==> id in before) && (forall id :: id in ids ==> id in after)
  {
    forall i :: 0 <= i < |ids| && ChangedAt(before, after, held, ids, i) ==>
      (i > 0 ==> InOrder(after, ids[i - 1], ids[i])) && (i + 1 < |ids| ==> InOrder(after, ids[i], ids[i + 1]))
  }

  /** Changing some IDs and times of a sorted list leaves it sorted exactly when each change fits. */
  lemma ChangedListSorted(before: map<string, Message>, after: map<string, Message>, held: seq<string>, ids: seq<string>)
    requires |held| == |ids| && (forall id :: id in held ==> id in before) && (forall id :: id in ids ==> id in after)
    requires AllComparable(held) && AllComparable(ids) && SortedIDs(before, held)
    ensures SortedIDs(after, ids) <==> ChangesFit(before, after, held, ids)
  {
    SortedByNeighbours(before, held);
    SortedByNeighbours(after, ids);
    if ChangesFit(before, after, held, ids) {
      forall i | 0 <= i < |ids| - 1
        ensures InOrder(after, ids[i], ids[i + 1])
      {
        assert InOrder(before, held[i], held[i + 1]);
        NeighboursFit(before, after, held, ids, i);
      }
    }
  }

  lemma NeighboursFit(before: map<string, Message>, after: map<string, Message>, held: seq<string>, ids: seq<string>, i: nat)
    requires |held| == |ids| && (forall id :: id in held ==> id in before) && (forall id :: id in ids ==> id in after)
    requires i < |ids| - 1 && InOrder(before, held[i], held[i + 1]) && ChangesFit(before, after, held, ids)
    ensures InOrder(after, ids[i], ids[i + 1])
  {
    assert ChangedAt(before, after, held, ids, i + 1) ==> InOrder(after, ids[i + 1 - 1], ids[i + 1]);
  }

  ghost predicate WellFormedIDs(inc: Incoming, u: Store, t: string) {
    && (t in u.threads ==> forall id :: id in u.threads[t].messageIDs ==> WellFormedID(id))
    && forall id :: id in Group(inc.arrived, t) ==> WellFormedID(id)
  }

  lemma WellFormedComparable(ids: seq<string>)
    requires forall id :: id in ids ==> WellFormedID(id)
    ensures AllComparable(ids)
  {
  }

  lemma RekeyedWellFormed(inc: Incoming, u: Store, t: string)
    requires WF(u) && IncomingFits(inc, u) && t in u.threads && WellFormedIDs(inc, u, t)
    ensures forall id :: id in OldIDs(inc, u, t) ==> WellFormedID(id)
  {
    HeldFacts(inc, u, t);
    var held, ids := u.threads[t].messageIDs, OldIDs(inc, u, t);
    forall id | id in ids
      ensures WellFormedID(id)
    {
      var i :| 0 <= i < |ids| && ids[i] == id;
      assert held[i] in held;
    }
  }

  /** Exactly when the branch that only rekeys keeps a sorted list sorted. */
  lemma RekeyedSortedIff(inc: Incoming, u: Store, scratch: map<string, Message>, t: string)
    requires WF(u) && IncomingFits(inc, u) && OnlyRekeyed(inc, u, t) && WellFormedIDs(inc, u, t)
    requires SortedIDs(u.messages, u.threads[t].messageIDs)
    ensures |OldIDs(inc, u, t)| == |u.threads[t].messageIDs| && forall id :: id in OldIDs(inc, u, t) ==> id in MergedMessages(inc, u)
    ensures FinalThread(inc, u, scratch, t).Ok? && FinalThread(inc, u, scratch, t).value.messageIDs == OldIDs(inc, u, t)
    ensures SortedIDs(MergedMessages(inc, u), OldIDs(inc, u, t))
        <==> ChangesFit(u.messages, MergedMessages(inc, u), u.threads[t].messageIDs, OldIDs(inc, u, t))
  {
    KeptStored(inc, u, t);
    UnsortedThread(inc, u, t);
    UnsortedValue(inc, u, scratch, t);
    RekeyedWellFormed(inc, u, t);
    WellFormedComparable(u.threads[t].messageIDs);
    WellFormedComparable(OldIDs(inc, u, t));
    ChangedListSorted(u.messages, MergedMessages(inc, u), u.threads[t].messageIDs, OldIDs(inc, u, t));
  }

  // ----- lists in the order of `sortMessageInfoList` -----

  ghost predicate SortedInfos(infos: seq<Message>, lengths: Lengths) {
    forall i, j :: 0 <= i < j < |infos| ==> !RankLess(InfoRank(infos[i], lengths), InfoRank(infos[j], lengths))
  }

  lemma RanksDescend(sorted: seq<Ranked<Message>>, lengths: Lengths)
    requires Descending(sorted) && forall x :: x in sorted ==> x.rank == InfoRank(x.item, lengths)
    ensures SortedInfos(Items(sorted), lengths)
  {
    forall i | 0 <= i < |sorted|
      ensures Items(sorted)[i] == sorted[i].item && sorted[i].rank == InfoRank(sorted[i].item, lengths)
    {
      assert sorted[i] in sorted;
    }
  }

  lemma SortDescInfos(ranked: seq<Ranked<Message>>, lengths: Lengths)
    requires forall x :: x in ranked ==> x.rank == InfoRank(x.item, lengths)
    ensures SortedInfos(Items(SortDesc(ranked)), lengths)
  {
    SortDescDescending(ranked);
    SameMultiset(SortDesc(ranked), ranked);
    RanksDescend(SortDesc(ranked), lengths);
  }

  lemma SortMessageInfosSorts(infos: seq<Message>)
    ensures SortedInfos(SortMessageInfos(infos), MaxLengths(ServerIDs(infos)))
  {
    SortDescInfos(RankedInfos(infos), MaxLengths(ServerIDs(infos)));
  }

  /** The IDs of one thread, taken from sorted messages, are sorted. */
  lemma {:induction false} GroupSorted(infos: seq<Message>, t: string, messages: map<string, Message>, lengths: Lengths)
    requires SortedInfos(infos, lengths)
    requires forall m :: m in infos && m.threadID == t ==> m.id != "" && m.id in messages && messages[m.id] == m
    ensures forall id :: id in Group(infos, t) ==> id in messages
    ensures forall i, j :: 0 <= i < j < |Group(infos, t)| ==>
      !RankLess(IDRank(messages, Group(infos, t)[i], lengths), IDRank(messages, Group(infos, t)[j], lengths))
  {
    if |infos| > 0 {
      var front, last := infos[..|infos| - 1], infos[|infos| - 1];
      assert infos == front + [last];
      GroupSorted(front, t, messages, lengths);
      if last.threadID == t {
        var g := Group(front, t);
        forall i | 0 <= i < |g|
          ensures !RankLess(IDRank(messages, g[i], lengths), IDRank(messages, last.id, lengths))
        {
          assert g[i] in g;
          var m :| m in front && m.threadID == t && MessageID(m) == g[i];
          var k :| 0 <= k < |front| && infos[k] == m;
          assert !RankLess(InfoRank(infos[k], lengths), InfoRank(infos[|infos| - 1], lengths));
        }
      }
    }
  }

  /** A thread that gets exactly the delivered messages lists them sorted. */
  lemma ServerGroupSorted(infos: seq<Message>, t: string, messages: map<string, Message>)
    requires forall m :: m in infos ==> m.id != "" && !IsLocal(m.id)
    requires forall m :: m in infos && m.threadID == t ==> m.id in messages && messages[m.id] == m
    ensures SortedIDs(messages, Group(SortMessageInfos(infos), t))
  {
    var sorted, lengths := SortMessageInfos(infos), MaxLengths(ServerIDs(infos));
    var ids := Group(sorted, t);
    SortMessageInfosSorts(infos);
    GroupSorted(sorted, t, messages, lengths);
    forall id | id in ids
      ensures id in ServerIDs(infos) && id != "" && !IsLocal(id)
    {
      var m :| m in sorted && m.threadID == t && MessageID(m) == id;
      var k :| 0 <= k < |infos| && infos[k] == m;
      assert ServerIDs(infos)[k] == id;
    }
    SortedAtAnyWidth(messages, ids, lengths);
  }

  lemma SortedAtAnyWidth(messages: map<string, Message>, ids: seq<string>, lengths: Lengths)
    requires forall id :: id in ids ==> id in messages && id != "" && !IsLocal(id) && Fits(id, lengths)
    requires forall i, j :: 0 <= i < j < |ids| ==> !RankLess(IDRank(messages, ids[i], lengths), IDRank(messages, ids[j], lengths))
    ensures SortedIDs(messages, ids)
  {
    forall i, j | 0 <= i < j < |ids|
      ensures !RankLess(IDRank(messages, ids[i], MaxLengths(ids)), IDRank(messages, ids[j], MaxLengths(ids)))
    {
      assert ids[i] in ids && ids[j] in ids;
      OrderIgnoresWidth(ids[i], ids[j], lengths, MaxLengths(ids));
    }
  }

  // ----- every thread of a merge -----

  lemma ArrivedStored(inc: Incoming, u: Store, m: Message)
    requires IncomingFits(inc, u) && m in inc.arrived
    ensures m.id in MergedMessages(inc, u) && MergedMessages(inc, u)[m.id] == m && !IsLocal(m.id)
  {
    RekeyShape(inc, u);
    assert MessageID(m) == m.id;
    assert Keyed(inc.arrived)[m.id] == m;
  }

  /** New and truncated threads list the delivered messages, in their sorted order. */
  lemma DeliveredSorted(inc: Incoming, u: Store, adopted: seq<Message>, t: string)
    requires IncomingFits(inc, u) && inc.arrived == SortMessageInfos(adopted)
    ensures SortedIDs(MergedMessages(inc, u), Group(inc.arrived, t))
  {
    forall m | m in adopted
      ensures m.id != "" && !IsLocal(m.id) && m.id in MergedMessages(inc, u) && MergedMessages(inc, u)[m.id] == m
    {
      ArrivedStored(inc, u, m);
    }
    ServerGroupSorted(adopted, t, MergedMessages(inc, u));
  }

  /** A thread without delivered messages keeps its list and its messages. */
  lemma UntouchedSorted(inc: Incoming, u: Store, scratch: map<string, Message>, t: string)
    requires WF(u) && IncomingFits(inc, u) && t in u.threads && t !in GroupKeys(inc.arrived)
    ensures FinalThread(inc, u, scratch, t).Ok? && FinalThread(inc, u, scratch, t).value.messageIDs == u.threads[t].messageIDs
    ensures SortedIDs(MergedMessages(inc, u), u.threads[t].messageIDs) <==> SortedIDs(u.messages, u.threads[t].messageIDs)
  {
    UntouchedValue(inc, u, scratch, t);
    KeptStored(inc, u, t);
    SortedIDsReads(MergedMessages(inc, u), u.messages, u.threads[t].messageIDs);
  }

  lemma UntouchedValue(inc: Incoming, u: Store, scratch: map<string, Message>, t: string)
    requires t in u.threads && t !in GroupKeys(inc.arrived)
    ensures FinalThread(inc, u, scratch, t).Ok? && FinalThread(inc, u, scratch, t).value.messageIDs == u.threads[t].messageIDs
    ensures KeptIDs(inc, u, t) == u.threads[t].messageIDs
  {
  }

  /** What the branch that does not sort needs. */
  ghost predicate RekeysInOrder(inc: Incoming, u: Store, t: string) {
    OnlyRekeyed(inc, u, t) ==>
      var held, ids, after := u.threads[t].messageIDs, OldIDs(inc, u, t), MergedMessages(inc, u);
      && |held| == |ids| && (forall id :: id in held ==> id in u.messages) && (forall id :: id in ids ==> id in after)
      && ChangesFit(u.messages, after, held, ids)
  }

  lemma DeliveredValue(inc: Incoming, u: Store, scratch: map<string, Message>, t: string)
    requires t in GroupKeys(inc.arrived) && (t !in u.threads || IsTruncated(inc, t))
    ensures FinalThread(inc, u, scratch, t).Ok? && FinalThread(inc, u, scratch, t).value.messageIDs == Group(inc.arrived, t)
    ensures !NeedsResort(inc, u, t) && !OnlyRekeyed(inc, u, t)
  {
  }

  lemma OnlyRekeyedSorted(inc: Incoming, u: Store, scratch: map<string, Message>, t: string)
    requires WF(u) && IncomingFits(inc, u) && OnlyRekeyed(inc, u, t) && WellFormedIDs(inc, u, t)
    requires SortedIDs(u.messages, u.threads[t].messageIDs)
    ensures FinalThread(inc, u, scratch, t).Ok?
    ensures SortedIDs(MergedMessages(inc, u), FinalThread(inc, u, scratch, t).value.messageIDs) <==> RekeysInOrder(inc, u, t)
  {
    RekeyedSortedIff(inc, u, scratch, t);
  }

  lemma MergedSorted(inc: Incoming, u: Store, scratch: map<string, Message>, adopted: seq<Message>, t: string)
    requires WF(u) && IncomingFits(inc, u) && ScratchFits(scratch, inc, u) && inc.arrived == SortMessageInfos(adopted)
    requires (t in GroupKeys(inc.arrived) || t in u.threads) && WellFormedIDs(inc, u, t)
    requires t in u.threads ==> SortedIDs(u.messages, u.threads[t].messageIDs)
    ensures FinalThread(inc, u, scratch, t).Ok?
    ensures SortedIDs(MergedMessages(inc, u), FinalThread(inc, u, scratch, t).value.messageIDs) <==> RekeysInOrder(inc, u, t)
  {
    if t !in GroupKeys(inc.arrived) {
      UntouchedSorted(inc, u, scratch, t);
    } else if NeedsResort(inc, u, t) {
      ResortedThread(inc, u, scratch, t);
    } else if OnlyRekeyed(inc, u, t) {
      OnlyRekeyedSorted(inc, u, scratch, t);
    } else {
      DeliveredValue(inc, u, scratch, t);
      DeliveredSorted(inc, u, adopted, t);
    }
  }

  /** After a merge of fitting messages into sorted lists, every list is sorted by what the store then holds,
      but one that was only rekeyed and of which some change does not fit between its neighbours. */
  lemma MergeSortsExactly(store: Store, infos: seq<Message>, statuses: map<string, Status>, env: Env, t: string)
    requires ValidEnv(env) && WF(store) && DeliveryFits(store, infos, env)
    requires Updated(store, env).Ok? && Arriving(store, infos, statuses, env).Ok?
    requires var u, inc := Updated(store, env).value.store, Arriving(store, infos, statuses, env).value;
      && (t in GroupKeys(inc.arrived) || t in u.threads) && WellFormedIDs(inc, u, t)
      && (t in u.threads ==> SortedIDs(u.messages, u.threads[t].messageIDs))
    ensures MergeNewMessages(store, infos, statuses, env).Ok?
    ensures var r := MergeNewMessages(store, infos, statuses, env).value.0;
      t in r.threads
      && (SortedIDs(r.messages, r.threads[t].messageIDs)
          <==> RekeysInOrder(Arriving(store, infos, statuses, env).value, Updated(store, env).value.store, t))
  {
    ArrivingFits(store, infos, statuses, env);
    var u, inc := Updated(store, env).value.store, Arriving(store, infos, statuses, env).value;
    ArrivingShape(store, infos, statuses, env);
    IncomingSorted(inc, u, env, AdoptAll(Mine(store, infos, env), u.messages).value, t);
    MergeOf(store, infos, statuses, env);
  }

  lemma ArrivingShape(store: Store, infos: seq<Message>, statuses: map<string, Status>, env: Env)
    requires ValidEnv(env) && Updated(store, env).Ok? && Arriving(store, infos, statuses, env).Ok?
    ensures AdoptAll(Mine(store, infos, env), Updated(store, env).value.store.messages).Ok?
    ensures Arriving(store, infos, statuses, env).value.arrived
         == SortMessageInfos(AdoptAll(Mine(store, infos, env), Updated(store, env).value.store.messages).value)
  {
  }

  lemma IncomingSorted(inc: Incoming, u: Store, env: Env, adopted: seq<Message>, t: string)
    requires ValidEnv(env) && WF(u) && IncomingFits(inc, u) && inc.arrived == SortMessageInfos(adopted)
    requires (t in GroupKeys(inc.arrived) || t in u.threads) && WellFormedIDs(inc, u, t)
    requires t in u.threads ==> SortedIDs(u.messages, u.threads[t].messageIDs)
    ensures MergeIncoming(inc, u, env).Ok?
    ensures var r := MergeIncoming(inc, u, env).value;
      t in r.threads && (SortedIDs(r.messages, r.threads[t].messageIDs) <==> RekeysInOrder(inc, u, t))
  {
    MergeIncomingResult(inc, u, env);
    MergedSorted(inc, u, Scratch(inc, u, env), adopted, t);
  }

  /** A fresh store lists every thread sorted. */
  lemma LoginSorts(store: Store, infos: seq<Message>, statuses: map<string, Status>, currentAsOf: int, env: Env, t: string)
    requires ValidEnv(env) && LoginFits(infos) && forall m :: m in infos ==> m.id != ""
    ensures Reduce(store, LoginSuccess(infos, statuses, currentAsOf), env).Ok?
    ensures var r := Reduce(store, LoginSuccess(infos, statuses, currentAsOf), env).value.0;
      t in r.threads ==> SortedIDs(r.messages, r.threads[t].messageIDs)
  {
    FreshStoreMirror(store, infos, statuses, currentAsOf, env);
    var r := Reduce(store, LoginSuccess(infos, statuses, currentAsOf), env).value.0;
    assert r.messages == Keyed(SortMessageInfos(infos));
    if t in r.threads {
      FreshList(SortMessageInfos(infos), statuses, env, t);
      FreshGroupSorted(infos, t);
    }
  }

  lemma FreshList(ordered: seq<Message>, statuses: map<string, Status>, env: Env, t: string)
    requires t in FreshThreads(ordered, statuses, env)
    ensures FreshThreads(ordered, statuses, env)[t].messageIDs in [Group(ordered, t), []]
  {
  }

  lemma FreshGroupSorted(infos: seq<Message>, t: string)
    requires LoginFits(infos) && forall m :: m in infos ==> m.id != ""
    ensures SortedIDs(Keyed(SortMessageInfos(infos)), Group(SortMessageInfos(infos), t))
  {
    var sorted := SortMessageInfos(infos);
    assert UniqueIDs(infos);
    UniqueIDsPermutation(infos, sorted);
    forall m | m in infos
      ensures !IsLocal(m.id) && m.id in Keyed(sorted) && Keyed(sorted)[m.id] == m
    {
      assert MessageID(m) == m.id;
    }
    ServerGroupSorted(infos, t, Keyed(sorted));
  }
}
