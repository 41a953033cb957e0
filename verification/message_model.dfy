/** The message store, its operation log and the replay of that log
    (lib/types/message-types.js, lib/reducers/message-reducer.js). */
module MessageModel {
  import opened Collections
  import opened MessageIds

  datatype MessageType = Text | Images | Multimedia | CreateSidebar | CreateThread | SidebarSource | OtherType(tag: nat)

  /** `id` and `localID` are "" when JavaScript has no value there.  `content` stands for every field
      the reducer only copies. */
  datatype Message = Message(id: string, localID: string, threadID: string, time: int, mtype: MessageType, content: string)

  datatype ThreadMessages = ThreadMessages(messageIDs: seq<string>, startReached: bool, lastNavigatedTo: int, lastPruned: int)
  datatype LocalInfo = LocalInfo(sendFailed: bool)

  datatype Store = Store(
    messages: map<string, Message>,
    threads: map<string, ThreadMessages>,
    local: map<string, LocalInfo>,
    currentAsOf: int)

  datatype Status = Exhaustive | Truncated | Unchanged

  function MessageID(m: Message): string {
    if m.id != "" then m.id else m.localID
  }

  predicate Composable(t: MessageType) {
    t.Text? || t.Images? || t.Multimedia?
  }

  predicate CanStartThread(t: MessageType) {
    t.CreateSidebar? || t.CreateThread? || t.SidebarSource?
  }

  predicate IsPending(threadID: string) {
    StartsWith(threadID, "pending")
  }

  // ----- sorting (lib/shared/message-utils.js:176-196) -----

  function InfoRank(m: Message, lengths: Lengths): Rank {
    Rank(m.time, if m.id == "" then Missing else Padded(ExtendMessageID(m.id, lengths)))
  }

  function ServerIDs(infos: seq<Message>): seq<string> {
    seq(|infos|, i requires 0 <= i < |infos| => infos[i].id)
  }

  function RankedInfos(infos: seq<Message>): (r: seq<Ranked<Message>>)
    ensures Items(r) == infos
  {
    var lengths := MaxLengths(ServerIDs(infos));
    seq(|infos|, i requires 0 <= i < |infos| => Ranked(InfoRank(infos[i], lengths), infos[i]))
  }

  function SortMessageInfos(infos: seq<Message>): (r: seq<Message>)
    ensures multiset(r) == multiset(infos)
    ensures forall m :: m in r <==> m in infos
    ensures |r| == |infos|
  {
    var r := Items(SortDesc(RankedInfos(infos)));
    SameMultiset(r, infos);
    r
  }

  function IDRank(messages: map<string, Message>, id: string, lengths: Lengths): Rank
    requires id in messages
  {
    Rank(messages[id].time, Padded(ExtendMessageID(id, lengths)))
  }

  function RankedIDs(messages: map<string, Message>, ids: seq<string>): (r: seq<Ranked<string>>)
    requires forall id :: id in ids ==> id in messages
    ensures Items(r) == ids
    ensures forall x :: x in r ==> x.item in ids && x.rank == IDRank(messages, x.item, MaxLengths(ids))
  {
    var lengths := MaxLengths(ids);
    seq(|ids|, i requires 0 <= i < |ids| => Ranked(IDRank(messages, ids[i], lengths), ids[i]))
  }

  /** `sortMessageIDs(messages)(ids)`; reading `.time` of a missing message throws. */
  function SortMessageIDs(messages: map<string, Message>, ids: seq<string>): (r: Outcome<seq<string>>)
    ensures r.Ok? <==> forall id :: id in ids ==> id in messages
    ensures r.Ok? ==> multiset(r.value) == multiset(ids)
  {
    if forall id :: id in ids ==> id in messages
    then Ok(Items(SortDesc(RankedIDs(messages, ids))))
    else Throw
  }

  /** The list is in descending (time, padded ID) order of what `messages` holds. */
  ghost predicate SortedIDs(messages: map<string, Message>, ids: seq<string>) {
    && (forall id :: id in ids ==> id in messages)
    && forall i, j :: 0 <= i < j < |ids| ==>
         !RankLess(IDRank(messages, ids[i], MaxLengths(ids)), IDRank(messages, ids[j], MaxLengths(ids)))
  }

  lemma MaxLengthsPermutation(a: seq<string>, b: seq<string>)
    requires forall x :: x in a <==> x in b
    ensures MaxLengths(a) == MaxLengths(b)
  {
  }

  /** In a descending sequence of ranked IDs, ranks read back from the map are descending. */
  lemma DescendingRanks(messages: map<string, Message>, sorted: seq<Ranked<string>>, lengths: Lengths)
    requires Descending(sorted)
    requires forall x :: x in sorted ==> x.item in messages && x.rank == IDRank(messages, x.item, lengths)
    ensures forall id :: id in Items(sorted) ==> id in messages
    ensures forall i, j :: 0 <= i < j < |sorted| ==>
      !RankLess(IDRank(messages, Items(sorted)[i], lengths), IDRank(messages, Items(sorted)[j], lengths))
  {
    forall i | 0 <= i < |sorted|
      ensures Items(sorted)[i] in messages && sorted[i].rank == IDRank(messages, Items(sorted)[i], lengths)
    {
      assert sorted[i] in sorted;
    }
  }

  /** The sort gives a permutation that is sorted by what the map holds. */
  lemma SameIDs(r: seq<string>, ids: seq<string>)
    requires multiset(r) == multiset(ids)
    ensures (forall id :: id in r <==> id in ids) && (NoDup(ids) ==> NoDup(r)) && MaxLengths(r) == MaxLengths(ids)
  {
    SameMultiset(r, ids);
    MaxLengthsPermutation(r, ids);
    if NoDup(ids) {
      PermutationNoDup(ids, r);
    }
  }

  lemma SortDescIDs(messages: map<string, Message>, ids: seq<string>, ranked: seq<Ranked<string>>)
    requires Items(ranked) == ids
    requires forall x :: x in ranked ==> x.item in messages && x.rank == IDRank(messages, x.item, MaxLengths(ids))
    ensures var r := Items(SortDesc(ranked));
      && SortedIDs(messages, r)
      && (forall id :: id in r <==> id in ids)
      && (NoDup(ids) ==> NoDup(r))
  {
    SortDescDescending(ranked);
    SameMultiset(SortDesc(ranked), ranked);
    DescendingRanks(messages, SortDesc(ranked), MaxLengths(ids));
    SameIDs(Items(SortDesc(ranked)), ids);
  }

  lemma SortMessageIDsSorts(messages: map<string, Message>, ids: seq<string>)
    requires forall id :: id in ids ==> id in messages
    ensures var r := SortMessageIDs(messages, ids).value;
      && SortedIDs(messages, r)
      && (forall id :: id in r <==> id in ids)
      && (NoDup(ids) ==> NoDup(r))
  {
    SortDescIDs(messages, ids, RankedIDs(messages, ids));
  }

  lemma RankedAt(messages: map<string, Message>, ids: seq<string>, i: nat)
    requires (forall id :: id in ids ==> id in messages) && i < |ids|
    ensures |RankedIDs(messages, ids)| == |ids|
    ensures RankedIDs(messages, ids)[i] == Ranked(IDRank(messages, ids[i], MaxLengths(ids)), ids[i])
  {
  }

  lemma RankedIDsRead(a: map<string, Message>, b: map<string, Message>, ids: seq<string>)
    requires forall id :: id in ids ==> id in a && id in b && a[id] == b[id]
    ensures RankedIDs(a, ids) == RankedIDs(b, ids)
  {
    forall i | 0 <= i < |ids|
      ensures |RankedIDs(a, ids)| == |RankedIDs(b, ids)| == |ids| && RankedIDs(a, ids)[i] == RankedIDs(b, ids)[i]
    {
      RankedAt(a, ids, i);
      RankedAt(b, ids, i);
    }
  }

  /** The sort reads the map only at the IDs it sorts. */
  lemma SortMessageIDsReads(a: map<string, Message>, b: map<string, Message>, ids: seq<string>)
    requires forall id :: id in ids ==> id in a && id in b && a[id] == b[id]
    ensures SortMessageIDs(a, ids) == SortMessageIDs(b, ids)
  {
    RankedIDsRead(a, b, ids);
  }

  /** So does being sorted. */
  lemma SortedIDsReads(a: map<string, Message>, b: map<string, Message>, ids: seq<string>)
    requires forall id :: id in ids ==> id in a && id in b && a[id] == b[id]
    ensures SortedIDs(a, ids) <==> SortedIDs(b, ids)
  {
    forall i | 0 <= i < |ids|
      ensures IDRank(a, ids[i], MaxLengths(ids)) == IDRank(b, ids[i], MaxLengths(ids))
    {
      assert ids[i] in ids;
    }
  }

  // ----- operations and their replay (message-reducer.js:648-682) -----

  datatype Op =
    | Replace(id: string, messageInfo: Message)
    | Remove(ids: seq<string>)
    | RemoveForThreads(threadIDs: seq<string>)
    | Rekey(from: string, to: string)
    | RemoveAll

  function Apply(messages: map<string, Message>, op: Op): map<string, Message> {
    match op
    case Replace(id, m) => messages[id := m]
    case Remove(ids) => map k | k in messages && k !in ids :: messages[k]
    case RemoveForThreads(ts) => map k | k in messages && messages[k].threadID !in ts :: messages[k]
    case Rekey(from, to) =>
      // a missing `from` leaves `undefined` under `to`, which every reader treats as absent
      var moved := if from in messages then messages[to := messages[from]] else messages - {to};
      moved - {from}
    case RemoveAll => map[]
  }

  function Replay(messages: map<string, Message>, ops: seq<Op>): map<string, Message> {
    if |ops| == 0 then messages
    else Apply(Replay(messages, ops[..|ops| - 1]), ops[|ops| - 1])
  }

  lemma {:induction false} ReplayConcat(messages: map<string, Message>, a: seq<Op>, b: seq<Op>)
    ensures Replay(messages, a + b) == Replay(Replay(messages, a), b)
    decreases |b|
  {
    if b == [] {
      assert a + b == a;
    } else {
      var front := b[..|b| - 1];
      assert (a + b)[..|a + b| - 1] == a + front;
      ReplayConcat(messages, a, front);
    }
  }

  lemma ReplayLast(messages: map<string, Message>, ops: seq<Op>, op: Op)
    ensures Replay(messages, ops + [op]) == Apply(Replay(messages, ops), op)
  {
    assert (ops + [op])[..|ops|] == ops;
  }

  /** `for (const id of ids) delete processedMessages[id]` */
  method DeleteIDs(messages: map<string, Message>, ids: seq<string>) returns (r: map<string, Message>)
    ensures r == Apply(messages, Remove(ids))
  {
    r := messages;
    for j := 0 to |ids|
      invariant r == map k | k in messages && k !in ids[..j] :: messages[k]
    {
      r := r - {ids[j]};
    }
    assert ids[..|ids|] == ids;
  }

  /** Deletes while visiting the keys, in any order. */
  method DeleteThreads(messages: map<string, Message>, threadIDs: seq<string>) returns (r: map<string, Message>)
    ensures r == Apply(messages, RemoveForThreads(threadIDs))
  {
    r := messages;
    var keys := messages.Keys;
    while keys != {}
      invariant keys <= messages.Keys
      invariant r == map k | k in messages && (k in keys || messages[k].threadID !in threadIDs) :: messages[k]
    {
      var k :| k in keys;
      if r[k].threadID in threadIDs {
        r := r - {k};
      }
      keys := keys - {k};
    }
  }

  method ProcessMessageStoreOperations(store: Store, ops: seq<Op>) returns (r: Store)
    ensures r == store.(messages := Replay(store.messages, ops))
  {
    if |ops| == 0 {
      return store;
    }
    var processed := store.messages;
    for i := 0 to |ops|
      invariant processed == Replay(store.messages, ops[..i])
    {
      PrefixNext(ops, i);
      ReplayLast(store.messages, ops[..i], ops[i]);
      match ops[i] {
        case Replace(id, m) =>
          processed := processed[id := m];
        case Remove(ids) =>
          processed := DeleteIDs(processed, ids);
        case RemoveForThreads(ts) =>
          processed := DeleteThreads(processed, ts);
        case Rekey(from, to) =>
          processed := if from in processed then processed[to := processed[from]] else processed - {to};
          processed := processed - {from};
        case RemoveAll =>
          processed := map[];
      }
    }
    assert ops[..|ops|] == ops;
    r := store.(messages := processed);
  }

  /** lodash `_keyBy(messageID)`: a later message wins. */
  function Keyed(infos: seq<Message>): (r: map<string, Message>)
    ensures forall k :: k in r <==> exists m :: m in infos && MessageID(m) == k
    ensures forall k :: k in r ==> r[k] in infos && MessageID(r[k]) == k
  {
    if |infos| == 0 then map[]
    else
      var front, last := Keyed(infos[..|infos| - 1]), infos[|infos| - 1];
      assert infos == infos[..|infos| - 1] + [last];
      front[MessageID(last) := last]
  }
}
