/** The thread store: operations for a batch of updates, and their replay (lib/reducers/thread-reducer.js). */
module ThreadUpdates {
  import opened Collections

  /** `content` stands for every field the reducer only copies. */
  datatype RawThreadInfo = RawThreadInfo(id: string, unread: bool, members: seq<string>, content: string)

  type Threads = map<string, RawThreadInfo>

  datatype Update =
    | UpdateThread(threadInfo: RawThreadInfo)
    | JoinThread(threadInfo: RawThreadInfo)
    | ReadStatus(threadID: string, unread: bool)
    | DeleteThread(threadID: string)
    | DeleteAccount(deletedUserID: string)
    | OtherUpdate

  datatype Op = Replace(id: string, threadInfo: RawThreadInfo) | Remove(ids: seq<string>) | RemoveAll

  // ----- operations and their replay -----

  function Apply(threads: Threads, op: Op): Threads {
    match op
    case Replace(id, info) => threads[id := info]
    case Remove(ids) => threads - ToSet(ids)
    case RemoveAll => map[]
  }

  function Replay(threads: Threads, ops: seq<Op>): Threads {
    if |ops| == 0 then threads else Apply(Replay(threads, ops[..|ops| - 1]), ops[|ops| - 1])
  }

  /** `processThreadStoreOperations` */
  method ProcessThreadStoreOperations(threads: Threads, ops: seq<Op>) returns (processed: Threads)
    ensures processed == Replay(threads, ops)
  {
    processed := threads;
    for i := 0 to |ops|
      invariant processed == Replay(threads, ops[..i])
    {
      assert ops[..i + 1][..i] == ops[..i];
      match ops[i] {
        case Replace(id, info) => processed := processed[id := info];
        case Remove(ids) =>
          var remaining := processed;
          for j := 0 to |ids|
            invariant remaining == processed - ToSet(ids[..j])
          {
            assert ids[..j + 1] == ids[..j] + [ids[j]];
            remaining := remaining - {ids[j]};
          }
          assert ids[..|ids|] == ids;
          processed := remaining;
        case RemoveAll => processed := map[];
      }
    }
    assert ops[..|ops|] == ops;
  }

  lemma {:induction false} ReplayConcat(threads: Threads, a: seq<Op>, b: seq<Op>)
    ensures Replay(threads, a + b) == Replay(Replay(threads, a), b)
  {
    if |b| == 0 {
      assert a + b == a;
    } else {
      ReplayConcat(threads, a, b[..|b| - 1]);
      assert (a + b)[..|a + b| - 1] == a + b[..|b| - 1];
    }
  }

  // ----- generating operations -----

  function WithoutMember(members: seq<string>, userID: string): seq<string> {
    Difference(members, [userID])
  }

  /** The replacements for an account deletion, the threads visited in the given order. */
  function AccountOps(threads: Threads, order: seq<string>, userID: string): seq<Op>
    requires forall id :: id in order ==> id in threads
  {
    if |order| == 0 then []
    else
      var front, id := AccountOps(threads, order[..|order| - 1], userID), order[|order| - 1];
      var left := WithoutMember(threads[id].members, userID);
      if |left| < |threads[id].members| then front + [Replace(id, threads[id].(members := left))] else front
  }

  function OpsFor(threads: Threads, order: seq<string>, u: Update): seq<Op>
    requires Enumerates(order, threads.Keys)
  {
    match u
    case UpdateThread(info) => if info.id in threads && threads[info.id] == info then [] else [Replace(info.id, info)]
    case JoinThread(info) => if info.id in threads && threads[info.id] == info then [] else [Replace(info.id, info)]
    case ReadStatus(id, unread) =>
      if id in threads && threads[id].unread != unread then [Replace(id, threads[id].(unread := unread))] else []
    case DeleteThread(id) => if id in threads then [Remove([id])] else []
    case DeleteAccount(userID) => AccountOps(threads, order, userID)
    case OtherUpdate => []
  }

  function OpsForAll(threads: Threads, order: seq<string>, updates: seq<Update>): seq<Op>
    requires Enumerates(order, threads.Keys)
  {
    if |updates| == 0 then []
    else OpsForAll(threads, order, updates[..|updates| - 1]) + OpsFor(threads, order, updates[|updates| - 1])
  }

  /** `generateOpsForThreadUpdates` */
  method GenerateOpsForThreadUpdates(threads: Threads, order: seq<string>, updates: seq<Update>) returns (ops: seq<Op>)
    requires Enumerates(order, threads.Keys)
    ensures ops == OpsForAll(threads, order, updates)
  {
    ops := [];
    for i := 0 to |updates|
      invariant ops == OpsForAll(threads, order, updates[..i])
    {
      assert updates[..i + 1][..i] == updates[..i];
      var u := updates[i];
      if (u.UpdateThread? || u.JoinThread?) && !(u.threadInfo.id in threads && threads[u.threadInfo.id] == u.threadInfo) {
        ops := ops + [Replace(u.threadInfo.id, u.threadInfo)];
      } else if u.ReadStatus? && u.threadID in threads && threads[u.threadID].unread != u.unread {
        ops := ops + [Replace(u.threadID, threads[u.threadID].(unread := u.unread))];
      } else if u.DeleteThread? && u.threadID in threads {
        ops := ops + [Remove([u.threadID])];
      } else if u.DeleteAccount? {
        var replacements := ReplaceMembers(threads, order, u.deletedUserID);
        ops := ops + replacements;
      }
    }
    assert updates[..|updates|] == updates;
  }

  method ReplaceMembers(threads: Threads, order: seq<string>, userID: string) returns (ops: seq<Op>)
    requires Enumerates(order, threads.Keys)
    ensures ops == AccountOps(threads, order, userID)
  {
    ops := [];
    for i := 0 to |order|
      invariant ops == AccountOps(threads, order[..i], userID)
    {
      assert order[..i + 1][..i] == order[..i];
      var info := threads[order[i]];
      var newMembers := WithoutMember(info.members, userID);
      if |newMembers| < |info.members| {
        ops := ops + [Replace(order[i], info.(members := newMembers))];
      }
    }
    assert order[..|order|] == order;
  }

  // ----- a batch against one at a time -----

  /** The reducer's step: operations generated against the store, then replayed on it. */
  function Reduced(threads: Threads, order: seq<string>, updates: seq<Update>): Threads
    requires Enumerates(order, threads.Keys)
  {
    Replay(threads, OpsForAll(threads, order, updates))
  }

  /** The updates reduced one after the other, each against the store the one before left. */
  function OneAtATime(threads: Threads, keys: Threads -> seq<string>, updates: seq<Update>): Threads
    requires ValidKeys(keys)
  {
    if |updates| == 0 then threads
    else
      var before := OneAtATime(threads, keys, updates[..|updates| - 1]);
      assert Enumerates(keys(before), before.Keys);
      Reduced(before, keys(before), [updates[|updates| - 1]])
  }

  ghost predicate ValidKeys(keys: Threads -> seq<string>) {
    forall m: Threads {:trigger Enumerates(keys(m), m.Keys)} :: Enumerates(keys(m), m.Keys)
  }

  /** The thread an update is about, if it is about one. */
  function Target(u: Update): Option<string> {
    match u
    case UpdateThread(info) => Some(info.id)
    case JoinThread(info) => Some(info.id)
    case ReadStatus(id, _) => Some(id)
    case DeleteThread(id) => Some(id)
    case _ => None
  }

  /** What an update means for thread id. */
  function Effect(now: Option<RawThreadInfo>, u: Update, id: string): Option<RawThreadInfo> {
    if u.DeleteAccount? then
      if now.Some? then Some(now.value.(members := WithoutMember(now.value.members, u.deletedUserID))) else None
    else if Target(u) != Some(id) then now
    else match u
      case UpdateThread(info) => Some(info)
      case JoinThread(info) => Some(info)
      case ReadStatus(_, unread) => if now.Some? then Some(now.value.(unread := unread)) else None
      case DeleteThread(_) => None
      case _ => now
  }

  /** The updates' meaning: each acts on what the one before left. */
  function Folded(base: Option<RawThreadInfo>, updates: seq<Update>, id: string): Option<RawThreadInfo> {
    if |updates| == 0 then base else Effect(Folded(base, updates[..|updates| - 1], id), updates[|updates| - 1], id)
  }

  /** Each update is taken on its own to the thread as it was before the batch; the last that changes it
      there stays. */
  function LastEffective(base: Option<RawThreadInfo>, updates: seq<Update>, id: string): Option<RawThreadInfo> {
    if |updates| == 0 then base
    else
      var last := Effect(base, updates[|updates| - 1], id);
      if last != base then last else LastEffective(base, updates[..|updates| - 1], id)
  }

  function At(threads: Threads, id: string): Option<RawThreadInfo> {
    if id in threads then Some(threads[id]) else None
  }

  /** Filtering out a member leaves a list of the same length only if it leaves the list. */
  lemma {:induction false} SameLengthSame(members: seq<string>, userID: string)
    ensures |WithoutMember(members, userID)| == |members| ==> WithoutMember(members, userID) == members
  {
    if |members| > 0 {
      SameLengthSame(members[..|members| - 1], userID);
      assert members == members[..|members| - 1] + [members[|members| - 1]];
    }
  }

  lemma ReplayOneMore(base: Threads, ops: seq<Op>, op: Op)
    ensures Replay(base, ops + [op]) == Apply(Replay(base, ops), op)
  {
    assert (ops + [op])[..|ops|] == ops;
  }

  /** Replaying an account deletion replaces the threads of the order that the user is a member of. */
  lemma {:induction false} AccountAt(threads: Threads, order: seq<string>, base: Threads, userID: string, id: string)
    requires forall k :: k in order ==> k in threads
    ensures At(Replay(base, AccountOps(threads, order, userID)), id) ==
            if id in order && Effect(At(threads, id), DeleteAccount(userID), id) != At(threads, id)
            then Effect(At(threads, id), DeleteAccount(userID), id) else At(base, id)
  {
    if |order| > 0 {
      var front, last := order[..|order| - 1], order[|order| - 1];
      assert order == front + [last];
      AccountAt(threads, front, base, userID, id);
      var left := WithoutMember(threads[last].members, userID);
      SameLengthSame(threads[last].members, userID);
      ReplayOneMore(base, AccountOps(threads, front, userID), Replace(last, threads[last].(members := left)));
    }
  }

  /** Replaying one update's operations, generated against a store, on any store: a thread that the update
      changes in the first becomes what it is there, the others stay. */
  lemma OpsAt(threads: Threads, order: seq<string>, base: Threads, u: Update, id: string)
    requires Enumerates(order, threads.Keys)
    ensures At(Replay(base, OpsFor(threads, order, u)), id) ==
            if Effect(At(threads, id), u, id) != At(threads, id) then Effect(At(threads, id), u, id) else At(base, id)
  {
    if u.DeleteAccount? {
      AccountAt(threads, order, base, u.deletedUserID, id);
    } else {
      var ops := OpsFor(threads, order, u);
      if |ops| == 1 {
        assert ops[..0] == [];
        assert Replay(base, ops) == Apply(base, ops[0]);
      }
    }
  }

  /** The store after a batch, thread by thread, for all updates. */
  lemma {:induction false} BatchEffect(threads: Threads, order: seq<string>, updates: seq<Update>, id: string)
    requires Enumerates(order, threads.Keys)
    ensures At(Reduced(threads, order, updates), id) == LastEffective(At(threads, id), updates, id)
  {
    if |updates| > 0 {
      var front, last := updates[..|updates| - 1], updates[|updates| - 1];
      BatchEffect(threads, order, front, id);
      ReplayConcat(threads, OpsForAll(threads, order, front), OpsFor(threads, order, last));
      OpsAt(threads, order, Reduced(threads, order, front), last, id);
    }
  }

  /** The store after the updates one at a time, thread by thread, for all updates. */
  lemma {:induction false} OneAtATimeEffect(threads: Threads, keys: Threads -> seq<string>, updates: seq<Update>, id: string)
    requires ValidKeys(keys)
    ensures At(OneAtATime(threads, keys, updates), id) == Folded(At(threads, id), updates, id)
  {
    if |updates| > 0 {
      var front, last := updates[..|updates| - 1], updates[|updates| - 1];
      OneAtATimeEffect(threads, keys, front, id);
      var before := OneAtATime(threads, keys, front);
      assert Enumerates(keys(before), before.Keys);
      BatchEffect(before, keys(before), [last], id);
      assert [last][..0] == [] && LastEffective(At(before, id), [last], id) == Effect(At(before, id), last, id);
    }
  }

  lemma SameAt(a: Threads, b: Threads)
    requires forall id :: At(a, id) == At(b, id)
    ensures a == b
  {
    forall id
      ensures id in a <==> id in b
      ensures id in a ==> a[id] == b[id]
    {
      assert At(a, id) == At(b, id);
    }
  }

  /** For all updates, account deletions among them: a batch has the result of its updates one at a time
      exactly if, for every thread, the last update that changes the thread as it was before the batch
      makes of it what all of them together should. */
  lemma BatchIsOneAtATimeIff(threads: Threads, order: seq<string>, keys: Threads -> seq<string>, updates: seq<Update>)
    requires Enumerates(order, threads.Keys) && ValidKeys(keys)
    ensures Reduced(threads, order, updates) == OneAtATime(threads, keys, updates)
            <==> forall id :: LastEffective(At(threads, id), updates, id) == Folded(At(threads, id), updates, id)
  {
    var batch, single := Reduced(threads, order, updates), OneAtATime(threads, keys, updates);
    forall id
      ensures At(batch, id) == LastEffective(At(threads, id), updates, id)
      ensures At(single, id) == Folded(At(threads, id), updates, id)
    {
      BatchEffect(threads, order, updates, id);
      OneAtATimeEffect(threads, keys, updates, id);
    }
    if forall id :: At(batch, id) == At(single, id) {
      SameAt(batch, single);
    }
  }

  // ----- each thread touched once -----

  predicate Touches(u: Update, id: string) {
    u.DeleteAccount? || Target(u) == Some(id)
  }

  ghost predicate TouchedOnce(updates: seq<Update>, id: string) {
    forall i, j :: 0 <= i < j < |updates| && Touches(updates[i], id) ==> !Touches(updates[j], id)
  }

  ghost predicate EachThreadOnce(updates: seq<Update>) {
    forall id :: TouchedOnce(updates, id)
  }

  ghost predicate Untouched(updates: seq<Update>, id: string) {
    forall i :: 0 <= i < |updates| ==> !Touches(updates[i], id)
  }

  lemma {:induction false} UntouchedStays(base: Option<RawThreadInfo>, updates: seq<Update>, id: string)
    requires Untouched(updates, id)
    ensures LastEffective(base, updates, id) == base && Folded(base, updates, id) == base
  {
    if |updates| > 0 {
      UntouchedStays(base, updates[..|updates| - 1], id);
      assert !Touches(updates[|updates| - 1], id);
    }
  }

  /** Where one update alone touches a thread, both readings are its effect. */
  lemma {:induction false} OnceEffect(base: Option<RawThreadInfo>, updates: seq<Update>, id: string, i: nat)
    requires i < |updates| && Touches(updates[i], id) && TouchedOnce(updates, id)
    ensures LastEffective(base, updates, id) == Effect(base, updates[i], id) == Folded(base, updates, id)
  {
    var n := |updates| - 1;
    if i == n {
      UntouchedStays(base, updates[..n], id);
    } else {
      OnceEffect(base, updates[..n], id, i);
      assert !Touches(updates[n], id);
    }
  }

  /** If no thread is touched twice, a batch has the same result as its updates one at a time, in any
      order. */
  lemma BatchIsOneAtATime(threads: Threads, order: seq<string>, keys: Threads -> seq<string>, updates: seq<Update>, permuted: seq<Update>)
    requires Enumerates(order, threads.Keys) && ValidKeys(keys)
    requires EachThreadOnce(updates) && EachThreadOnce(permuted) && forall u :: u in updates <==> u in permuted
    ensures Reduced(threads, order, updates) == OneAtATime(threads, keys, permuted)
  {
    forall id
      ensures At(Reduced(threads, order, updates), id) == At(OneAtATime(threads, keys, permuted), id)
    {
      BatchEffect(threads, order, updates, id);
      OneAtATimeEffect(threads, keys, permuted, id);
      AnyOrder(At(threads, id), updates, permuted, id);
    }
    SameAt(Reduced(threads, order, updates), OneAtATime(threads, keys, permuted));
  }

  lemma AnyOrder(base: Option<RawThreadInfo>, updates: seq<Update>, permuted: seq<Update>, id: string)
    requires EachThreadOnce(updates) && EachThreadOnce(permuted) && forall u :: u in updates <==> u in permuted
    ensures LastEffective(base, updates, id) == Folded(base, permuted, id)
  {
    assert TouchedOnce(updates, id) && TouchedOnce(permuted, id);
    if i: nat :| i < |updates| && Touches(updates[i], id) {
      assert updates[i] in permuted;
      var j: nat :| j < |permuted| && permuted[j] == updates[i];
      OnceEffect(base, updates, id, i);
      OnceEffect(base, permuted, id, j);
    } else {
      forall j | 0 <= j < |permuted|
        ensures !Touches(permuted[j], id)
      {
        assert permuted[j] in updates;
      }
      UntouchedStays(base, updates, id);
      UntouchedStays(base, permuted, id);
    }
  }

  // ----- two updates -----

  lemma PairEffects(base: Option<RawThreadInfo>, u: Update, v: Update, id: string)
    ensures LastEffective(base, [u, v], id) == if Effect(base, v, id) != base then Effect(base, v, id) else Effect(base, u, id)
    ensures Folded(base, [u, v], id) == Effect(Effect(base, u, id), v, id)
  {
    assert [u, v][..1] == [u] && [u][..0] == [];
    assert LastEffective(base, [u], id) == Effect(base, u, id) && Folded(base, [u], id) == Effect(base, u, id);
  }

  /** Two updates: the batch agrees exactly if, for every thread, the second has the same effect before and
      after the first, or has none at all after it where it has none before it. */
  lemma PairIsOneAtATimeIff(threads: Threads, order: seq<string>, keys: Threads -> seq<string>, u: Update, v: Update)
    requires Enumerates(order, threads.Keys) && ValidKeys(keys)
    ensures Reduced(threads, order, [u, v]) == OneAtATime(threads, keys, [u, v])
            <==> forall id :: PairAgrees(At(threads, id), u, v, id)
  {
    forall id
      ensures PairAgrees(At(threads, id), u, v, id)
              <==> LastEffective(At(threads, id), [u, v], id) == Folded(At(threads, id), [u, v], id)
    {
      PairEffects(At(threads, id), u, v, id);
    }
    BatchIsOneAtATimeIff(threads, order, keys, [u, v]);
  }

  ghost predicate PairAgrees(base: Option<RawThreadInfo>, u: Update, v: Update, id: string) {
    var first := Effect(base, u, id);
    Effect(first, v, id) == if Effect(base, v, id) != base then Effect(base, v, id) else first
  }

  /** The result of two updates of the one thread of a store, as a batch and one at a time. */
  lemma LonePair(id: string, before: RawThreadInfo, u: Update, v: Update, keys: Threads -> seq<string>)
    requires ValidKeys(keys) && Target(u) == Some(id) && Target(v) == Some(id)
    ensures Enumerates([id], map[id := before].Keys)
    ensures At(Reduced(map[id := before], [id], [u, v]), id) == LastEffective(Some(before), [u, v], id)
    ensures At(OneAtATime(map[id := before], keys, [u, v]), id) == Folded(Some(before), [u, v], id)
    ensures forall k :: k != id ==> k !in Reduced(map[id := before], [id], [u, v]) && k !in OneAtATime(map[id := before], keys, [u, v])
  {
    var threads := map[id := before];
    BatchEffect(threads, [id], [u, v], id);
    OneAtATimeEffect(threads, keys, [u, v], id);
    forall k | k != id
      ensures k !in Reduced(threads, [id], [u, v]) && k !in OneAtATime(threads, keys, [u, v])
    {
      BatchEffect(threads, [id], [u, v], k);
      OneAtATimeEffect(threads, keys, [u, v], k);
      PairEffects(None, u, v, k);
    }
  }

  lemma LoneMap(threads: Threads, id: string, info: RawThreadInfo)
    requires At(threads, id) == Some(info) && forall k :: k != id ==> k !in threads
    ensures threads == map[id := info]
  {
  }

  /** A thread update and a read-status update of the same thread: the batch builds the second from the
      thread as it was before the first, and loses the first. */
  lemma LosesTheFirst(id: string, before: RawThreadInfo, after: RawThreadInfo, keys: Threads -> seq<string>)
    requires ValidKeys(keys) && after.id == id && before != after && !before.unread && !after.unread
    ensures var threads, updates := map[id := before], [UpdateThread(after), ReadStatus(id, true)];
      && Enumerates([id], threads.Keys)
      && Reduced(threads, [id], updates) == map[id := before.(unread := true)]
      && OneAtATime(threads, keys, updates) == map[id := after.(unread := true)]
  {
    var u, v := UpdateThread(after), ReadStatus(id, true);
    LonePair(id, before, u, v, keys);
    PairEffects(Some(before), u, v, id);
    LoneMap(Reduced(map[id := before], [id], [u, v]), id, before.(unread := true));
    LoneMap(OneAtATime(map[id := before], keys, [u, v]), id, after.(unread := true));
  }

  /** A thread update and one that takes it back: the second equals the thread before the batch, makes no
      operation, and is lost. */
  lemma LosesTheSecond(id: string, before: RawThreadInfo, after: RawThreadInfo, keys: Threads -> seq<string>)
    requires ValidKeys(keys) && before.id == id && after.id == id && before != after
    ensures var threads, updates := map[id := before], [UpdateThread(after), UpdateThread(before)];
      && Enumerates([id], threads.Keys)
      && Reduced(threads, [id], updates) == map[id := after]
      && OneAtATime(threads, keys, updates) == map[id := before]
  {
    var u, v := UpdateThread(after), UpdateThread(before);
    LonePair(id, before, u, v, keys);
    PairEffects(Some(before), u, v, id);
    LoneMap(Reduced(map[id := before], [id], [u, v]), id, after);
    LoneMap(OneAtATime(map[id := before], keys, [u, v]), id, before);
  }

  /** The other way round nothing is lost: a thread update that changes the thread overwrites what the
      read-status update did. */
  lemma LosesNothing(id: string, before: RawThreadInfo, after: RawThreadInfo, unread: bool, keys: Threads -> seq<string>)
    requires ValidKeys(keys) && after.id == id && before != after
    ensures var threads, updates := map[id := before], [ReadStatus(id, unread), UpdateThread(after)];
      && Enumerates([id], threads.Keys)
      && Reduced(threads, [id], updates) == OneAtATime(threads, keys, updates) == map[id := after]
  {
    var u, v := ReadStatus(id, unread), UpdateThread(after);
    LonePair(id, before, u, v, keys);
    PairEffects(Some(before), u, v, id);
    LoneMap(Reduced(map[id := before], [id], [u, v]), id, after);
    LoneMap(OneAtATime(map[id := before], keys, [u, v]), id, after);
  }
}
