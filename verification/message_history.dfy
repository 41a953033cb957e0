/** Contiguity: the server messages a client holds for a thread are one block of that thread's history,
    and `startReached` means the block starts at the first message.  The truncation statuses are read as
    the contract documented in lib/types/message-types.js:429-456. */
module MessageHistory {
  import opened Collections
  import opened MessageIds
  import opened MessageModel
  import opened PendingThreads
  import opened ThreadMerge
  import opened MessageReducer
  import opened MessageIntegrity
  import opened MessageMerge
  import opened MessageRuns
  import opened MessageLocals

  /** Server IDs of each thread, oldest first, as far as the server has assigned them. */
  type History = map<string, seq<string>>

  ghost predicate ValidHistory(hist: History) {
    forall t :: t in hist ==> !IsPending(t) && NoDup(hist[t]) && forall id :: id in hist[t] ==> !IsLocal(id)
  }

  function HistoryOf(hist: History, t: string): seq<string> {
    if t in hist then hist[t] else []
  }

  /** The server only appends. */
  ghost predicate Extends(hist: History, later: History) {
    forall t :: t in hist ==> t in later && hist[t] <= later[t]
  }

  /** `id` is held as a server message. */
  ghost predicate Holds(thread: ThreadMessages, id: string) {
    id in thread.messageIDs && !IsLocal(id)
  }

  ghost predicate IsBlock(h: seq<string>, lo: int, hi: int) {
    0 <= lo <= hi <= |h|
  }

  /** The held server messages are exactly history entries lo..hi, from the start if `startReached`. */
  ghost predicate Covers(thread: ThreadMessages, h: seq<string>, lo: int, hi: int) {
    && IsBlock(h, lo, hi)
    && (forall id :: Holds(thread, id) <==> id in h[lo..hi])
    && (thread.startReached ==> lo == 0)
  }

  ghost predicate Contiguous(thread: ThreadMessages, h: seq<string>) {
    exists lo, hi :: Covers(thread, h, lo, hi)
  }

  ghost predicate AllContiguous(store: Store, hist: History) {
    forall t :: t in store.threads ==> Contiguous(store.threads[t], HistoryOf(hist, t))
  }

  lemma ContiguityGrows(store: Store, hist: History, later: History)
    requires AllContiguous(store, hist) && Extends(hist, later)
    ensures AllContiguous(store, later)
  {
    forall t | t in store.threads
      ensures Contiguous(store.threads[t], HistoryOf(later, t))
    {
      var lo, hi :| Covers(store.threads[t], HistoryOf(hist, t), lo, hi);
      if t in hist {
        assert hist[t][lo..hi] == later[t][lo..hi];
        assert Covers(store.threads[t], HistoryOf(later, t), lo, hi);
      } else {
        assert Covers(store.threads[t], HistoryOf(later, t), 0, 0);
      }
    }
  }

  /** A thread that holds no server message is contiguous whatever it claims. */
  lemma NothingHeldIsContiguous(thread: ThreadMessages, h: seq<string>)
    requires forall id :: id in thread.messageIDs ==> IsLocal(id)
    ensures Contiguous(thread, h)
  {
    assert Covers(thread, h, 0, 0);
  }

  // ----- reassignment and dropped threads -----

  /** A thread without history holds local messages only. */
  lemma NoHistoryHoldsNothing(thread: ThreadMessages)
    requires Contiguous(thread, [])
    ensures forall id :: id in thread.messageIDs ==> IsLocal(id)
  {
    var lo, hi :| Covers(thread, [], lo, hi);
    forall id | id in thread.messageIDs
      ensures IsLocal(id)
    {
      assert !Holds(thread, id);
    }
  }

  /** `id` is held as a server message and not left out. */
  ghost predicate Kept(thread: ThreadMessages, dropped: seq<string>, id: string) {
    Holds(thread, id) && id !in dropped
  }

  /** A history entry that is left out below one that is kept: only if the start is not reached, and with
      nothing kept below it. */
  ghost predicate DroppedAtEnds(h: seq<string>, thread: ThreadMessages, dropped: seq<string>, startReached: bool) {
    forall j, k :: 0 <= j < k < |h| && h[j] in dropped && Kept(thread, dropped, h[k]) ==>
      !startReached && forall i :: 0 <= i < j ==> !Kept(thread, dropped, h[i])
  }

  lemma {:induction false} LowestKept(thread: ThreadMessages, dropped: seq<string>, h: seq<string>, k: nat) returns (a: nat)
    requires k < |h| && Kept(thread, dropped, h[k])
    ensures a <= k && Kept(thread, dropped, h[a]) && forall i :: 0 <= i < a ==> !Kept(thread, dropped, h[i])
  {
    if i: nat :| i < k && Kept(thread, dropped, h[i]) {
      a := LowestKept(thread, dropped, h, i);
    } else {
      a := k;
    }
  }

  lemma {:induction false} HighestKept(thread: ThreadMessages, dropped: seq<string>, h: seq<string>, k: nat) returns (b: nat)
    requires k < |h| && Kept(thread, dropped, h[k])
    ensures k <= b < |h| && Kept(thread, dropped, h[b]) && forall i :: b < i < |h| ==> !Kept(thread, dropped, h[i])
    decreases |h| - k
  {
    if i: nat :| k < i < |h| && Kept(thread, dropped, h[i]) {
      b := HighestKept(thread, dropped, h, i);
    } else {
      b := k;
    }
  }

  lemma BlockIndex(h: seq<string>, lo: int, hi: int, i: nat)
    requires NoDup(h) && IsBlock(h, lo, hi) && i < |h|
    ensures h[i] in h[lo..hi] <==> lo <= i < hi
  {
    BlockMembers(h, lo, hi, h[i]);
  }

  /** Between the lowest and the highest kept entry everything is kept. */
  lemma KeptBetween(thread: ThreadMessages, dropped: seq<string>, h: seq<string>, startReached: bool, a: nat, b: nat, i: nat)
    requires NoDup(h) && Contiguous(thread, h) && a <= i <= b < |h|
    requires Kept(thread, dropped, h[a]) && Kept(thread, dropped, h[b]) && DroppedAtEnds(h, thread, dropped, startReached)
    ensures Kept(thread, dropped, h[i])
  {
    var lo, hi :| Covers(thread, h, lo, hi);
    BlockIndex(h, lo, hi, a);
    BlockIndex(h, lo, hi, b);
    BlockIndex(h, lo, hi, i);
    assert !(h[i] in dropped && a < i < b);
  }

  /** With the start reached, the lowest kept entry is the first one. */
  lemma KeptFromStart(thread: ThreadMessages, dropped: seq<string>, h: seq<string>, a: nat)
    requires NoDup(h) && Contiguous(thread, h) && thread.startReached && a < |h| && Kept(thread, dropped, h[a])
    requires DroppedAtEnds(h, thread, dropped, true) && forall i :: 0 <= i < a ==> !Kept(thread, dropped, h[i])
    ensures a == 0
  {
    var lo, hi :| Covers(thread, h, lo, hi);
    BlockIndex(h, lo, hi, a);
    BlockIndex(h, lo, hi, 0);
  }

  lemma BlockIsContiguous(thread: ThreadMessages, h: seq<string>, lo: int, hi: int)
    requires Covers(thread, h, lo, hi)
    ensures Contiguous(thread, h)
  {
  }

  lemma KeptIsBlock(thread: ThreadMessages, dropped: seq<string>, h: seq<string>, startReached: bool, a: nat, b: nat, id: string)
    requires NoDup(h) && Contiguous(thread, h) && a <= b < |h| && DroppedAtEnds(h, thread, dropped, startReached)
    requires Kept(thread, dropped, h[a]) && Kept(thread, dropped, h[b])
    requires forall i :: 0 <= i < |h| && Kept(thread, dropped, h[i]) ==> a <= i <= b
    ensures Kept(thread, dropped, id) <==> id in h[a..b + 1]
  {
    BlockMembers(h, a, b + 1, id);
    if Kept(thread, dropped, id) {
      KeptIsEntry(thread, dropped, h, id);
    }
    if i: nat :| a <= i <= b && h[i] == id {
      KeptBetween(thread, dropped, h, startReached, a, b, i);
    }
  }

  /** What is kept of a block is a block, if what is left out is at its ends. */
  lemma KeptBlock(thread: ThreadMessages, dropped: seq<string>, h: seq<string>, startReached: bool, k: nat) returns (a: nat, b: nat)
    requires NoDup(h) && Contiguous(thread, h) && (startReached ==> thread.startReached)
    requires k < |h| && Kept(thread, dropped, h[k]) && DroppedAtEnds(h, thread, dropped, startReached)
    ensures a <= b <= |h| && (startReached ==> a == 0)
    ensures forall id :: Kept(thread, dropped, id) <==> id in h[a..b]
  {
    a := LowestKept(thread, dropped, h, k);
    var last := HighestKept(thread, dropped, h, k);
    b := last + 1;
    forall id
      ensures Kept(thread, dropped, id) <==> id in h[a..b]
    {
      KeptIsBlock(thread, dropped, h, startReached, a, last, id);
    }
    if startReached {
      KeptFromStart(thread, dropped, h, a);
    }
  }

  lemma KeptContiguous(thread: ThreadMessages, after: ThreadMessages, dropped: seq<string>, h: seq<string>, k: nat)
    requires NoDup(h) && Contiguous(thread, h) && (after.startReached ==> thread.startReached)
    requires k < |h| && Kept(thread, dropped, h[k]) && DroppedAtEnds(h, thread, dropped, after.startReached)
    requires forall id :: Holds(after, id) <==> Kept(thread, dropped, id)
    ensures Contiguous(after, h)
  {
    var a, b := KeptBlock(thread, dropped, h, after.startReached, k);
    forall id
      ensures Holds(after, id) <==> id in h[a..b]
    {
      assert Holds(after, id) <==> Kept(thread, dropped, id);
    }
    BlockIsContiguous(after, h, a, b);
  }

  lemma KeptIsEntry(thread: ThreadMessages, dropped: seq<string>, h: seq<string>, id: string)
    requires Contiguous(thread, h) && Kept(thread, dropped, id)
    ensures exists k :: 0 <= k < |h| && h[k] == id
  {
    var lo, hi :| Covers(thread, h, lo, hi);
    BlockMembers(h, lo, hi, id);
  }

  lemma BlockDropsAtEnds(thread: ThreadMessages, after: ThreadMessages, dropped: seq<string>, h: seq<string>)
    requires NoDup(h) && Contiguous(after, h) && forall id :: Holds(after, id) <==> Kept(thread, dropped, id)
    ensures DroppedAtEnds(h, thread, dropped, after.startReached)
  {
    var a, b :| Covers(after, h, a, b);
    forall i: nat | i < |h|
      ensures Kept(thread, dropped, h[i]) <==> a <= i < b
    {
      BlockIndex(h, a, b, i);
      assert Holds(after, h[i]) <==> Kept(thread, dropped, h[i]);
    }
  }

  /** A block that loses entries is a block exactly if it loses them at its ends. */
  lemma KeptContiguousIff(thread: ThreadMessages, after: ThreadMessages, dropped: seq<string>, h: seq<string>)
    requires NoDup(h) && Contiguous(thread, h) && (after.startReached ==> thread.startReached)
    requires forall id :: Holds(after, id) <==> Kept(thread, dropped, id)
    ensures Contiguous(after, h) <==> DroppedAtEnds(h, thread, dropped, after.startReached)
  {
    if Contiguous(after, h) {
      BlockDropsAtEnds(thread, after, dropped, h);
    } else if k: nat :| k < |h| && Kept(thread, dropped, h[k]) {
      if DroppedAtEnds(h, thread, dropped, after.startReached) {
        KeptContiguous(thread, after, dropped, h, k);
      }
    } else {
      forall id | id in after.messageIDs
        ensures IsLocal(id)
      {
        if Holds(after, id) {
          KeptIsEntry(thread, dropped, h, id);
        }
      }
      NothingHeldIsContiguous(after, h);
    }
  }

  /** Merging local messages into a thread keeps its block exactly if the server messages they replace are
      at its ends. */
  lemma RealizedContiguousIff(pending: ThreadMessages, realized: ThreadMessages, messages: map<string, Message>, h: seq<string>)
    requires NoDup(h) && Contiguous(pending, []) && Contiguous(realized, h)
    requires forall id :: id in pending.messageIDs || id in realized.messageIDs ==> id in messages
    requires NoDup(realized.messageIDs) && Disjoint(pending.messageIDs, realized.messageIDs)
    ensures MergeThreads(pending, realized, messages).Ok?
    ensures Contiguous(MergeThreads(pending, realized, messages).value, h) <==>
            DroppedAtEnds(h, realized, Superseded(pending.messageIDs, realized.messageIDs, messages), pending.startReached && realized.startReached)
  {
    var dropped := Superseded(pending.messageIDs, realized.messageIDs, messages);
    NoHistoryHoldsNothing(pending);
    MergeSuperseded(pending.messageIDs, realized.messageIDs, messages, "");
    var after := MergeThreads(pending, realized, messages).value;
    forall id
      ensures Holds(after, id) <==> Kept(realized, dropped, id)
    {
      MergeSuperseded(pending.messageIDs, realized.messageIDs, messages, id);
    }
    KeptContiguousIff(realized, after, dropped, h);
  }

  /** Wherever a pending list is merged into the realized one, the server messages it replaces are at the
      ends of the held block. */
  ghost predicate DropsAtEnds(store: Store, env: Env, hist: History)
    requires ValidEnv(env) && WF(store)
  {
    var p2r := P2R(env);
    forall p :: p in p2r && MergedPair(store.threads, env.keys(store.threads.Keys), p, p2r[p]) ==>
      PairDropsAtEnds(store, env, hist, p, p2r[p])
  }

  ghost predicate PairDropsAtEnds(store: Store, env: Env, hist: History, p: string, n: string)
    requires ValidEnv(env) && WF(store) && p in store.threads && n in store.threads
  {
    var pending, realized := store.threads[p], store.threads[n];
    DroppedAtEnds(HistoryOf(hist, n), realized,
                  Superseded(pending.messageIDs, realized.messageIDs, ReassignedMessages(store.messages, P2R(env), env.threadInfos)),
                  pending.startReached && realized.startReached)
  }

  /** A realized thread that is held under its pending ID too. */
  lemma MergedBlock(store: Store, env: Env, hist: History, p: string, n: string)
    requires ValidEnv(env) && WF(store) && ValidHistory(hist) && AllContiguous(store, hist)
    requires p in store.threads && n in store.threads && p in P2R(env) && P2R(env)[p] == n && n != ""
    ensures Reassign(store, env).Ok? && n in Reassign(store, env).value.store.threads
    ensures Contiguous(Reassign(store, env).value.store.threads[n], HistoryOf(hist, n)) <==>
            (Visited(env.keys(store.threads.Keys), n, p) ==> PairDropsAtEnds(store, env, hist, p, n))
  {
    P2RSound(env);
    RealizedThread(store, env, p, n);
    assert HistoryOf(hist, p) == [];
    ThreadsDisjoint(store, p, n);
    RealizedContiguousIff(store.threads[p], store.threads[n], ReassignedMessages(store.messages, P2R(env), env.threadInfos), HistoryOf(hist, n));
  }

  lemma ThreadsDisjoint(store: Store, p: string, n: string)
    requires WF(store) && p in store.threads && n in store.threads && p != n
    ensures Disjoint(store.threads[p].messageIDs, store.threads[n].messageIDs)
  {
    forall id | id in store.threads[p].messageIDs
      ensures id !in store.threads[n].messageIDs
    {
      assert store.messages[id].threadID == p;
    }
  }

  /** A list that is not merged keeps its block. */
  lemma MovedContiguous(store: Store, env: Env, hist: History, src: string, t: string, thread: ThreadMessages)
    requires ValidEnv(env) && WF(store) && ValidHistory(hist) && AllContiguous(store, hist)
    requires ComesFrom(store.threads, P2R(env), ReassignedMessages(store.messages, P2R(env), env.threadInfos), src, t, thread)
    requires src == t || t !in store.threads
    ensures Contiguous(thread, HistoryOf(hist, t))
  {
    P2RSound(env);
    if src != t {
      assert HistoryOf(hist, src) == [];
      NoHistoryHoldsNothing(store.threads[src]);
      NothingHeldIsContiguous(thread, HistoryOf(hist, t));
    }
  }

  /** Moving pending threads keeps every block exactly if the server messages that pending copies replace
      are at the ends of theirs. */
  lemma ReassignContiguousIff(store: Store, env: Env, hist: History)
    requires ValidEnv(env) && WF(store) && ValidHistory(hist) && AllContiguous(store, hist)
    ensures Reassign(store, env).Ok?
    ensures AllContiguous(Reassign(store, env).value.store, hist) <==> DropsAtEnds(store, env, hist)
  {
    ReassignKeepsWF(store, env);
    P2RSound(env);
    var p2r, order, r := P2R(env), env.keys(store.threads.Keys), Reassign(store, env).value.store;
    assert Enumerates(order, store.threads.Keys);
    if AllContiguous(r, hist) {
      forall p | p in p2r && MergedPair(store.threads, order, p, p2r[p])
        ensures PairDropsAtEnds(store, env, hist, p, p2r[p])
      {
        MergedBlock(store, env, hist, p, p2r[p]);
      }
    }
    if DropsAtEnds(store, env, hist) {
      forall t | t in r.threads
        ensures Contiguous(r.threads[t], HistoryOf(hist, t))
      {
        var src := ReassignedFrom(store.threads, p2r, r.messages, order, t);
        if src != t && t in store.threads {
          MergedBlock(store, env, hist, src, t);
        } else {
          MovedContiguous(store, env, hist, src, t, r.threads[t]);
        }
      }
    }
  }

  /** A pending thread shares no message with the thread that realizes it: it holds local messages only,
      and a local ID belongs to one thread. */
  lemma ReassignUnrelated(store: Store, env: Env, hist: History, t: string)
    requires ValidEnv(env) && WF(store) && ValidHistory(hist) && AllContiguous(store, hist) && OneThread(store.messages)
    requires t in store.threads && RealizedID(P2R(env), t) in store.threads && t in P2R(env)
    ensures Unrelated(store.threads[t].messageIDs, store.threads[RealizedID(P2R(env), t)].messageIDs,
                      ReassignedMessages(store.messages, P2R(env), env.threadInfos))
  {
    P2RSound(env);
    var n := RealizedID(P2R(env), t);
    assert n != t && t !in hist && HistoryOf(hist, t) == [];
    NoHistoryHoldsNothing(store.threads[t]);
    forall x, y | x in store.threads[t].messageIDs && y in store.threads[n].messageIDs
      ensures x != y && !SameMessage(store.messages[x], store.messages[y])
    {
      PendingUnrelated(store, t, n, x, y);
    }
  }

  /** So it is where each local ID belongs to one thread. */
  lemma ReassignContiguous(store: Store, env: Env, hist: History)
    requires ValidEnv(env) && WF(store) && ValidHistory(hist) && AllContiguous(store, hist) && OneThread(store.messages)
    ensures Reassign(store, env).Ok? && AllContiguous(Reassign(store, env).value.store, hist)
  {
    P2RSound(env);
    var p2r, messages := P2R(env), ReassignedMessages(store.messages, P2R(env), env.threadInfos);
    forall p | p in p2r && p in store.threads && p2r[p] in store.threads && p2r[p] != ""
      ensures PairDropsAtEnds(store, env, hist, p, p2r[p])
    {
      ReassignUnrelated(store, env, hist, p);
      UnrelatedDropsNone(store.threads[p].messageIDs, store.threads[p2r[p]].messageIDs, messages);
    }
    ReassignContiguousIff(store, env, hist);
  }

  /** Dropping unwatched threads and adding empty ones keeps every block. */
  lemma UpdatedContiguous(store: Store, env: Env, hist: History)
    requires ValidEnv(env) && WF(store) && ValidHistory(hist) && AllContiguous(store, hist) && OneThread(store.messages)
    ensures Updated(store, env).Ok? && AllContiguous(Updated(store, env).value.store, hist)
  {
    ReassignContiguous(store, env, hist);
    var r, u := Reassign(store, env).value.store, Updated(store, env).value.store;
    forall t | t in u.threads
      ensures Contiguous(u.threads[t], HistoryOf(hist, t))
    {
      if t !in r.threads || u.threads[t] != r.threads[t] {
        NothingHeldIsContiguous(u.threads[t], HistoryOf(hist, t));
      }
    }
  }

  // ----- the truncation contract -----

  /** The delivered IDs of a thread are history entries a..c. */
  ghost predicate Delivers(group: seq<string>, h: seq<string>, a: int, c: int) {
    IsBlock(h, a, c) && forall id :: id in group <==> id in h[a..c]
  }

  /** A block of a thread's history reaches, or overlaps, what is held; EXHAUSTIVE promises the first
      message is in one of the two. */
  ghost predicate Joins(held: ThreadMessages, h: seq<string>, a: int, c: int, exhaustive: bool) {
    if (forall id :: !Holds(held, id)) && !held.startReached then exhaustive ==> a == 0
    else forall lo, hi :: Covers(held, h, lo, hi) ==> a <= hi && lo <= c && (exhaustive ==> a == 0 || lo == 0)
  }

  ghost predicate Promised(inc: Incoming, u: Store, t: string, h: seq<string>, a: int, c: int) {
    if t !in u.threads then IsExhaustive(inc, t) ==> a == 0
    else IsTruncated(inc, t) || Joins(u.threads[t], h, a, c, IsExhaustive(inc, t))
  }

  /** What the server promises for thread t: a block; unless it says TRUNCATED, one that joins the held
      block; and for EXHAUSTIVE with nothing delivered, that nothing is older than what is held. */
  ghost predicate Contract(inc: Incoming, u: Store, t: string, h: seq<string>) {
    if t in GroupKeys(inc.arrived) then
      exists a, c :: Delivers(Group(inc.arrived, t), h, a, c) && Promised(inc, u, t, h, a, c)
    else
      t in u.threads && IsExhaustive(inc, t) && (exists id :: Holds(u.threads[t], id)) ==>
        forall lo, hi :: Covers(u.threads[t], h, lo, hi) ==> lo == 0
  }

  /** Two joining blocks make one block. */
  lemma JoinBlocks(h: seq<string>, lo: int, hi: int, a: int, c: int)
    requires IsBlock(h, lo, hi) && IsBlock(h, a, c) && a <= hi && lo <= c
    ensures var (from, to) := (if a < lo then a else lo, if c < hi then hi else c);
      IsBlock(h, from, to) && forall id :: id in h[from..to] <==> id in h[lo..hi] || id in h[a..c]
  {
    var from, to := if a < lo then a else lo, if c < hi then hi else c;
    forall id | id in h[from..to]
      ensures id in h[lo..hi] || id in h[a..c]
    {
      var k :| from <= k < to && h[k] == id;
      if lo <= k < hi {
        assert h[lo..hi][k - lo] == id;
      } else {
        assert h[a..c][k - a] == id;
      }
    }
    forall id | id in h[lo..hi] || id in h[a..c]
      ensures id in h[from..to]
    {
      var k :| from <= k < to && h[k] == id;
      assert h[from..to][k - from] == id;
    }
  }

  /** The kept server IDs are the held ones that were not delivered again. */
  lemma KeptServerIDs(inc: Incoming, u: Store, t: string)
    requires WF(u) && IncomingFits(inc, u)
    requires t in u.threads && !(t in GroupKeys(inc.arrived) && IsTruncated(inc, t))
    ensures forall id :: !IsLocal(id) ==>
      (id in KeptIDs(inc, u, t) || id in Group(inc.arrived, t) <==> id in u.threads[t].messageIDs || id in Group(inc.arrived, t))
  {
    RekeyShape(inc, u);
    if t in GroupKeys(inc.arrived) {
      var ids := u.threads[t].messageIDs;
      forall l | l in ids && l in inc.rekeys
        ensures inc.rekeys[l] in Group(inc.arrived, t)
      {
        assert RekeyFits(l, inc.rekeys[l], inc.arrived, u);
      }
      KeptFacts(ids, inc.rekeys, Group(inc.arrived, t));
    }
  }

  /** After the merge a thread holds the delivered IDs and, unless truncated, what it held before. */
  lemma MergedHolds(inc: Incoming, u: Store, scratch: map<string, Message>, t: string)
    requires WF(u) && IncomingFits(inc, u) && ScratchFits(scratch, inc, u)
    requires t in GroupKeys(inc.arrived) || t in u.threads
    ensures FinalThread(inc, u, scratch, t).Ok?
    ensures var r := FinalThread(inc, u, scratch, t).value;
      forall id :: Holds(r, id) <==>
        id in Group(inc.arrived, t)
        || (t in u.threads && !(t in GroupKeys(inc.arrived) && IsTruncated(inc, t)) && Holds(u.threads[t], id))
  {
    FinalThreadMembers(inc, u, scratch, t);
    GroupStored(inc, u, t);
    var r := FinalThread(inc, u, scratch, t).value;
    forall id
      ensures Holds(r, id) <==> id in Group(inc.arrived, t) || (id in KeptIDs(inc, u, t) && !IsLocal(id))
    {
    }
    if t in u.threads && !(t in GroupKeys(inc.arrived) && IsTruncated(inc, t)) {
      KeptServerIDs(inc, u, t);
    }
  }

  lemma MergedStartReached(inc: Incoming, u: Store, scratch: map<string, Message>, t: string)
    requires t in GroupKeys(inc.arrived) || t in u.threads
    requires FinalThread(inc, u, scratch, t).Ok?
    ensures FinalThread(inc, u, scratch, t).value.startReached ==
      if t in u.threads && !(t in GroupKeys(inc.arrived) && IsTruncated(inc, t))
      then u.threads[t].startReached || IsExhaustive(inc, t)
      else IsExhaustive(inc, t)
  {
  }

  ghost predicate HoldsNothing(thread: ThreadMessages) {
    (forall id :: !Holds(thread, id)) && !thread.startReached
  }

  lemma ArrivedContiguous(held: ThreadMessages, r: ThreadMessages, h: seq<string>, group: seq<string>, a: int, c: int, exhaustive: bool)
    requires Contiguous(held, h) && Delivers(group, h, a, c) && Joins(held, h, a, c, exhaustive)
    requires forall id :: Holds(r, id) <==> id in group || Holds(held, id)
    requires r.startReached == (held.startReached || exhaustive)
    ensures Contiguous(r, h)
  {
    var lo, hi :| Covers(held, h, lo, hi);
    if HoldsNothing(held) {
      assert Covers(r, h, a, c);
    } else {
      JoinBlocks(h, lo, hi, a, c);
      var from, to := if a < lo then a else lo, if c < hi then hi else c;
      assert forall id :: Holds(r, id) <==> id in h[a..c] || id in h[lo..hi];
      assert Covers(r, h, from, to);
    }
  }

  /** A delivery that keeps its contract keeps every thread's block. */
  lemma MergedContiguous(inc: Incoming, u: Store, scratch: map<string, Message>, t: string, h: seq<string>)
    requires WF(u) && IncomingFits(inc, u) && ScratchFits(scratch, inc, u)
    requires t in GroupKeys(inc.arrived) || t in u.threads
    requires t in u.threads ==> Contiguous(u.threads[t], h)
    requires Contract(inc, u, t, h)
    ensures FinalThread(inc, u, scratch, t).Ok? && Contiguous(FinalThread(inc, u, scratch, t).value, h)
  {
    MergedHolds(inc, u, scratch, t);
    MergedStartReached(inc, u, scratch, t);
    var r := FinalThread(inc, u, scratch, t).value;
    if t in GroupKeys(inc.arrived) {
      var a, c :| Delivers(Group(inc.arrived, t), h, a, c) && Promised(inc, u, t, h, a, c);
      if t !in u.threads || IsTruncated(inc, t) {
        assert Covers(r, h, a, c);
      } else {
        ArrivedContiguous(u.threads[t], r, h, Group(inc.arrived, t), a, c, IsExhaustive(inc, t));
      }
    } else {
      NothingArrived(inc, t);
      var lo, hi :| Covers(u.threads[t], h, lo, hi);
      if exists id :: Holds(u.threads[t], id) {
        assert Covers(r, h, lo, hi);
      } else {
        assert Covers(r, h, 0, 0);
      }
    }
  }

  // ----- pruning -----

  /** Among the listed IDs, those in the history come newest first. */
  ghost predicate NewestFirst(ids: seq<string>, h: seq<string>) {
    forall p, q, i, j :: 0 <= p < q < |ids| && 0 <= i < |h| && 0 <= j < |h| && h[i] == ids[p] && h[j] == ids[q] ==> i > j
  }

  /** If a listed entry is cut, so is every older one. */
  lemma OlderDropped(ids: seq<string>, h: seq<string>, n: nat, i: nat, k: nat)
    requires NewestFirst(ids, h) && n <= |ids| && i <= k < |h| && h[k] in ids && h[k] !in ids[..n]
    ensures h[i] !in ids[..n]
  {
    var q :| 0 <= q < |ids| && ids[q] == h[k];
    forall p | 0 <= p < n
      ensures ids[p] != h[i]
    {
      assert p < q;
    }
  }

  /** The survivors of a cut are the part of the block from some entry up. */
  lemma UpperPart(ids: seq<string>, h: seq<string>, n: nat, lo: nat, hi: nat) returns (m: nat)
    requires NewestFirst(ids, h) && n <= |ids| && lo <= hi <= |h|
    requires forall k :: lo <= k < hi ==> h[k] in ids
    ensures lo <= m <= hi
    ensures forall k :: lo <= k < hi ==> (h[k] in ids[..n] <==> m <= k)
  {
    m := hi;
    while m > lo && h[m - 1] in ids[..n]
      invariant lo <= m <= hi
      invariant forall k :: m <= k < hi ==> h[k] in ids[..n]
    {
      m := m - 1;
    }
    forall k | lo <= k < m
      ensures h[k] !in ids[..n]
    {
      assert k < m - 1 ==> h[m - 1] !in ids[..n];
      OlderDropped(ids, h, n, k, m - 1);
    }
  }

  lemma BlockMembers(h: seq<string>, lo: int, hi: int, id: string)
    requires IsBlock(h, lo, hi)
    ensures id in h[lo..hi] <==> exists k :: lo <= k < hi && h[k] == id
  {
    if exists k :: lo <= k < hi && h[k] == id {
      var k :| lo <= k < hi && h[k] == id;
      assert h[lo..hi][k - lo] == id;
    }
  }

  /** Cutting a newest-first list keeps an upper part of its block. */
  lemma PrefixContiguous(thread: ThreadMessages, h: seq<string>, n: nat)
    requires Contiguous(thread, h) && NewestFirst(thread.messageIDs, h) && n <= |thread.messageIDs|
    ensures Contiguous(thread.(messageIDs := thread.messageIDs[..n], startReached := false), h)
  {
    var ids, r := thread.messageIDs, thread.(messageIDs := thread.messageIDs[..n], startReached := false);
    var lo, hi :| Covers(thread, h, lo, hi);
    forall k | lo <= k < hi
      ensures h[k] in ids && !IsLocal(h[k])
    {
      BlockMembers(h, lo, hi, h[k]);
      assert Holds(thread, h[k]);
    }
    var m := UpperPart(ids, h, n, lo, hi);
    forall id
      ensures Holds(r, id) <==> id in h[m..hi]
    {
      BlockMembers(h, lo, hi, id);
      BlockMembers(h, m, hi, id);
      assert Holds(r, id) ==> Holds(thread, id);
    }
    assert Covers(r, h, m, hi);
  }

  /** A list sorted by the stored messages is newest first, when the history is ordered by (time, numeric
      ID) and stored server messages have the server's times. */
  ghost predicate OrderedHistory(h: seq<string>, messages: map<string, Message>) {
    && (forall i :: 0 <= i < |h| ==> ServerID(h[i]))
    && forall i, j :: 0 <= i < j < |h| && h[i] in messages && h[j] in messages ==>
         messages[h[i]].time < messages[h[j]].time || (messages[h[i]].time == messages[h[j]].time && Value(h[i]) < Value(h[j]))
  }

  lemma SortedIsNewestFirst(ids: seq<string>, h: seq<string>, messages: map<string, Message>)
    requires SortedIDs(messages, ids) && OrderedHistory(h, messages) && NoDup(ids)
    ensures NewestFirst(ids, h)
  {
    forall p, q, i, j | 0 <= p < q < |ids| && 0 <= i < |h| && 0 <= j < |h| && h[i] == ids[p] && h[j] == ids[q]
      ensures i > j
    {
      EarlierIsNewer(ids, h, messages, p, q, i, j);
    }
  }

  lemma EarlierIsNewer(ids: seq<string>, h: seq<string>, messages: map<string, Message>, p: nat, q: nat, i: nat, j: nat)
    requires SortedIDs(messages, ids) && OrderedHistory(h, messages) && NoDup(ids)
    requires p < q < |ids| && i < |h| && j < |h| && h[i] == ids[p] && h[j] == ids[q]
    ensures i > j
  {
    assert ids[p] in ids && ids[q] in ids;
    ServerIsNotLocal(ids[p]);
    ServerIsNotLocal(ids[q]);
    PaddedOrderIsNumeric(ids[p], ids[q], MaxLengths(ids));
  }

  lemma PruneContiguous(store: Store, threadIDs: seq<string>, now: int, hist: History)
    requires AllContiguous(store, hist)
    requires forall t :: t in threadIDs && t in store.threads && |store.threads[t].messageIDs| > DEFAULT_NUMBER_PER_THREAD ==>
      NewestFirst(store.threads[t].messageIDs, HistoryOf(hist, t))
    ensures AllContiguous(ReducePrune(store, threadIDs, now).0, hist)
  {
    var r := ReducePrune(store, threadIDs, now).0;
    forall t | t in r.threads
      ensures Contiguous(r.threads[t], HistoryOf(hist, t))
    {
      var h, thread := HistoryOf(hist, t), store.threads[t];
      if t in threadIDs && |thread.messageIDs| > DEFAULT_NUMBER_PER_THREAD {
        PrefixContiguous(thread, h, DEFAULT_NUMBER_PER_THREAD);
        var cut := thread.(messageIDs := thread.messageIDs[..DEFAULT_NUMBER_PER_THREAD], startReached := false);
        SameHoldings(cut, r.threads[t], h);
      } else {
        SameHoldings(thread, r.threads[t], h);
      }
    }
  }

  lemma SameHoldings(a: ThreadMessages, b: ThreadMessages, h: seq<string>)
    requires Contiguous(a, h) && (b.startReached ==> a.startReached)
    requires forall id :: Holds(a, id) <==> Holds(b, id)
    ensures Contiguous(b, h)
  {
    var lo, hi :| Covers(a, h, lo, hi);
    assert Covers(b, h, lo, hi);
  }

  // ----- acknowledged messages -----

  lemma ReplaceKeyMembers(held: seq<string>, from: string, to: string)
    ensures forall id :: id in ReplaceKey(held, from, to) <==> (id in held && id != from) || (id == to && from in held)
  {
    var replaced := ReplaceKey(held, from, to);
    forall id
      ensures id in replaced <==> (id in held && id != from) || (id == to && from in held)
    {
      if id in replaced {
        var i :| 0 <= i < |replaced| && replaced[i] == id;
        assert held[i] in held;
      }
      if (id in held && id != from) || (id == to && from in held) {
        var i :| 0 <= i < |held| && held[i] == if id in held && id != from then id else from;
        assert replaced[i] == id;
      }
    }
  }

  lemma SuccessHolds(store: Store, localID: string, serverID: string, t: string, time: int)
    requires WF(store) && SendSuccessFits(store, localID, serverID, t)
    requires serverID in store.messages || localID in store.messages
    ensures ReduceSendSuccess(store, localID, serverID, t, time).Ok?
    ensures var r := ReduceSendSuccess(store, localID, serverID, t, time).value.0;
      && r.threads.Keys == store.threads.Keys && r.threads[t].startReached == store.threads[t].startReached
      && (forall s :: s in r.threads && s != t ==> r.threads[s] == store.threads[s])
      && forall id :: Holds(r.threads[t], id) <==>
           (Holds(store.threads[t], id) || (id == serverID && localID in store.threads[t].messageIDs))
  {
    var held := store.threads[t].messageIDs;
    var ids := Uniq(ReplaceKey(held, localID, serverID));
    SendSuccessResult(store, localID, serverID, t, time);
    ReplaceKeyMembers(held, localID, serverID);
    SameMultiset(SortMessageIDs(SuccessMessages(store, localID, serverID, time), ids).value, ids);
  }

  /** Adding history entry i to a block that it touches leaves a block. */
  lemma AddEntry(held: ThreadMessages, r: ThreadMessages, h: seq<string>, lo: int, hi: int, i: int)
    requires Covers(held, h, lo, hi) && 0 <= i < |h| && lo - 1 <= i <= hi
    requires forall id :: Holds(r, id) <==> Holds(held, id) || id == h[i]
    requires r.startReached ==> held.startReached
    ensures Contiguous(r, h)
  {
    JoinBlocks(h, lo, hi, i, i + 1);
    assert h[i..i + 1] == [h[i]];
    assert Covers(r, h, if i < lo then i else lo, if i + 1 < hi then hi else i + 1);
  }

  /** Adding an entry that leaves a gap leaves no block. */
  lemma AddApart(held: ThreadMessages, r: ThreadMessages, h: seq<string>, lo: int, hi: int, i: int)
    requires Covers(held, h, lo, hi) && NoDup(h) && lo < hi && 0 <= i < |h| && !(lo - 1 <= i <= hi)
    requires forall id :: Holds(r, id) <==> Holds(held, id) || id == h[i]
    ensures !Contiguous(r, h)
  {
    var gap := if i < lo then lo - 1 else hi;
    BlockMembers(h, lo, hi, h[gap]);
    BlockMembers(h, lo, hi, h[lo]);
    assert Holds(r, h[lo]) && Holds(r, h[i]) && !Holds(r, h[gap]);
    forall from, to
      ensures !Covers(r, h, from, to)
    {
      if IsBlock(h, from, to) {
        BlockMembers(h, from, to, h[lo]);
        BlockMembers(h, from, to, h[i]);
        BlockMembers(h, from, to, h[gap]);
      }
    }
  }

  /** An entry that is all a thread holds is a block; it is the start of the history if that was reached. */
  lemma LoneEntry(r: ThreadMessages, h: seq<string>, i: int)
    requires NoDup(h) && 0 <= i < |h| && forall id :: Holds(r, id) <==> id == h[i]
    ensures Contiguous(r, h) <==> !r.startReached || i == 0
  {
    assert h[i..i + 1] == [h[i]];
    if !r.startReached || i == 0 {
      assert Covers(r, h, i, i + 1);
    }
    forall lo, hi | Covers(r, h, lo, hi)
      ensures !r.startReached || i == 0
    {
      BlockMembers(h, lo, hi, h[i]);
      assert Holds(r, h[i]);
      if lo == 0 && i > 0 {
        BlockMembers(h, lo, hi, h[0]);
        assert h[0] != h[i];
      }
    }
  }

  /** Where an acknowledged message keeps the block: next to it, or anywhere if nothing is held, but first
      if the start of the thread is taken to be reached. */
  predicate AckKeeps(startReached: bool, lo: int, hi: int, i: int) {
    if lo < hi then lo - 1 <= i <= hi else startReached ==> i == 0
  }

  /** An acknowledged message that is history entry i keeps the block exactly when i touches it. */
  lemma SendSuccessContiguousIff(
    store: Store, localID: string, serverID: string, t: string, time: int, h: seq<string>, lo: int, hi: int, i: int)
    requires WF(store) && SendSuccessFits(store, localID, serverID, t) && NoDup(h)
    requires t in store.threads && localID in store.threads[t].messageIDs
    requires Covers(store.threads[t], h, lo, hi) && 0 <= i < |h| && h[i] == serverID
    ensures ReduceSendSuccess(store, localID, serverID, t, time).Ok?
    ensures t in ReduceSendSuccess(store, localID, serverID, t, time).value.0.threads
    ensures Contiguous(ReduceSendSuccess(store, localID, serverID, t, time).value.0.threads[t], h)
        <==> AckKeeps(store.threads[t].startReached, lo, hi, i)
  {
    SuccessHolds(store, localID, serverID, t, time);
    var r := ReduceSendSuccess(store, localID, serverID, t, time).value.0.threads[t];
    if lo == hi {
      assert forall id :: !Holds(store.threads[t], id);
      LoneEntry(r, h, i);
    } else if lo - 1 <= i <= hi {
      AddEntry(store.threads[t], r, h, lo, hi, i);
    } else {
      AddApart(store.threads[t], r, h, lo, hi, i);
    }
  }

  /** History entry i is in, or next to, whatever block the thread covers. */
  ghost predicate Touches(held: ThreadMessages, h: seq<string>, i: int) {
    HoldsNothing(held) || forall lo, hi :: Covers(held, h, lo, hi) ==> lo - 1 <= i <= hi
  }

  ghost predicate AckTouches(store: Store, localID: string, serverID: string, t: string, h: seq<string>) {
    t in store.threads && localID in store.threads[t].messageIDs ==>
      exists i :: 0 <= i < |h| && h[i] == serverID && Touches(store.threads[t], h, i)
  }

  lemma AckedThread(held: ThreadMessages, r: ThreadMessages, h: seq<string>, i: int)
    requires Contiguous(held, h) && 0 <= i < |h| && Touches(held, h, i)
    requires forall id :: Holds(r, id) <==> Holds(held, id) || id == h[i]
    requires r.startReached == held.startReached
    ensures Contiguous(r, h)
  {
    if HoldsNothing(held) {
      assert h[i..i + 1] == [h[i]];
      assert Covers(r, h, i, i + 1);
    } else {
      var lo, hi :| Covers(held, h, lo, hi);
      AddEntry(held, r, h, lo, hi, i);
    }
  }

  lemma SendSuccessContiguous(store: Store, localID: string, serverID: string, t: string, time: int, hist: History)
    requires WF(store) && SendSuccessFits(store, localID, serverID, t) && AllContiguous(store, hist)
    requires AckTouches(store, localID, serverID, t, HistoryOf(hist, t))
    ensures ReduceSendSuccess(store, localID, serverID, t, time).Ok?
    ensures AllContiguous(ReduceSendSuccess(store, localID, serverID, t, time).value.0, hist)
  {
    if serverID in store.messages || localID in store.messages {
      SuccessHolds(store, localID, serverID, t, time);
      var threads := ReduceSendSuccess(store, localID, serverID, t, time).value.0.threads;
      var h, held := HistoryOf(hist, t), store.threads[t];
      if localID in held.messageIDs {
        var i :| 0 <= i < |h| && h[i] == serverID && Touches(held, h, i);
        AckedThread(held, threads[t], h, i);
      } else {
        SameHoldings(held, threads[t], h);
      }
      assert forall s :: s in threads ==> Contiguous(threads[s], HistoryOf(hist, s));
    }
  }

  // ----- every action, every run -----

  /** A store filled from scratch holds one block per delivered thread. */
  ghost predicate LoginContract(infos: seq<Message>, statuses: map<string, Status>, hist: History) {
    var ordered := SortMessageInfos(infos);
    forall t :: t in GroupKeys(ordered) ==>
      exists a, c :: Delivers(Group(ordered, t), HistoryOf(hist, t), a, c)
        && (t in statuses && statuses[t] == Exhaustive ==> a == 0)
  }

  lemma DeliveredIsContiguous(thread: ThreadMessages, group: seq<string>, h: seq<string>, a: int, c: int)
    requires Delivers(group, h, a, c) && (thread.startReached ==> a == 0)
    requires thread.messageIDs == group && forall id :: id in group ==> !IsLocal(id)
    ensures Contiguous(thread, h)
  {
    assert Covers(thread, h, a, c);
  }

  lemma LoginContiguous(store: Store, infos: seq<Message>, statuses: map<string, Status>, currentAsOf: int, env: Env, hist: History)
    requires ValidEnv(env) && LoginFits(infos) && (forall m :: m in infos ==> m.id != "") && LoginContract(infos, statuses, hist)
    ensures var r := ReduceOther(store, LoginSuccess(infos, statuses, currentAsOf), env);
      r.Ok? && AllContiguous(r.value.0, hist)
  {
    var r := ReduceOther(store, LoginSuccess(infos, statuses, currentAsOf), env).value.0;
    forall t | t in r.threads
      ensures Contiguous(r.threads[t], HistoryOf(hist, t))
    {
      ServerGroup(infos, t);
      FreshContiguous(SortMessageInfos(infos), statuses, env, HistoryOf(hist, t), t);
    }
  }

  lemma ServerGroup(infos: seq<Message>, t: string)
    requires LoginFits(infos) && forall m :: m in infos ==> m.id != ""
    ensures forall id :: id in Group(SortMessageInfos(infos), t) ==> !IsLocal(id)
  {
  }

  lemma FreshContiguous(ordered: seq<Message>, statuses: map<string, Status>, env: Env, h: seq<string>, t: string)
    requires t in GroupKeys(ordered) ==>
      exists a, c :: Delivers(Group(ordered, t), h, a, c) && (t in statuses && statuses[t] == Exhaustive ==> a == 0)
    requires forall id :: id in Group(ordered, t) ==> !IsLocal(id)
    requires t in FreshThreads(ordered, statuses, env)
    ensures Contiguous(FreshThreads(ordered, statuses, env)[t], h)
  {
    var thread := FreshThreads(ordered, statuses, env)[t];
    if t in GroupKeys(ordered) {
      var a, c :| Delivers(Group(ordered, t), h, a, c) && (t in statuses && statuses[t] == Exhaustive ==> a == 0);
      DeliveredIsContiguous(thread, Group(ordered, t), h, a, c);
    } else {
      NothingHeldIsContiguous(thread, h);
    }
  }

  /** Starting a send changes no thread's server messages. */
  lemma StartSendContiguous(store: Store, m: Message, now: int, hist: History)
    requires WF(store) && LocalMessage(m) && AllContiguous(store, hist) && StartSend(store, m, now).Ok?
    ensures AllContiguous(StartSend(store, m, now).value.0, hist)
  {
    var r := StartSend(store, m, now).value.0;
    var ids := ListOf(store, m.threadID);
    if m.localID in store.messages {
      SameMultiset(SortMessageIDs(store.messages[m.localID := m], ids).value, ids);
    }
    LocalChangeContiguous(store, r, m.threadID, hist);
  }

  lemma AddLocalContiguous(store: Store, m: Message, now: int, hist: History)
    requires LocalMessage(m) && AllContiguous(store, hist)
    ensures AllContiguous(AddLocal(store, m, now).0, hist)
  {
    LocalChangeContiguous(store, AddLocal(store, m, now).0, m.threadID, hist);
  }

  /** A change to one thread that leaves its server messages and `startReached` alone. */
  lemma LocalChangeContiguous(store: Store, r: Store, t: string, hist: History)
    requires AllContiguous(store, hist)
    requires forall s :: s in r.threads && s != t ==> s in store.threads && r.threads[s] == store.threads[s]
    requires t in r.threads ==> if t in store.threads
      then r.threads[t].startReached == store.threads[t].startReached && forall id :: Holds(r.threads[t], id) <==> Holds(store.threads[t], id)
      else forall id :: !Holds(r.threads[t], id)
    ensures AllContiguous(r, hist)
  {
    if t in r.threads {
      if t in store.threads {
        SameHoldings(store.threads[t], r.threads[t], HistoryOf(hist, t));
      } else {
        forall id | id in r.threads[t].messageIDs
          ensures IsLocal(id)
        {
          assert !Holds(r.threads[t], id);
        }
        NothingHeldIsContiguous(r.threads[t], HistoryOf(hist, t));
      }
    }
  }

  lemma ReactionFailedContiguous(store: Store, localID: string, t: string, hist: History)
    requires t in store.threads && IsLocal(localID) && AllContiguous(store, hist)
    ensures ReduceReactionFailed(store, localID, t).Ok? && AllContiguous(ReduceReactionFailed(store, localID, t).value.0, hist)
  {
    LocalChangeContiguous(store, ReduceReactionFailed(store, localID, t).value.0, t, hist);
  }

  /** What the server and the client's ordering promise for one action, given the history so far. */
  ghost predicate StepContract(store: Store, action: Action, env: Env, hist: History)
    requires ValidEnv(env)
  {
    match Delivered(action)
    case Some(p) =>
      Updated(store, env).Ok? && Arriving(store, p.infos, p.statuses, env).Ok? ==>
        DeliveryContract(Arriving(store, p.infos, p.statuses, env).value, Updated(store, env).value.store, hist)
    case None =>
      match action
      case LoginSuccess(infos, statuses, _) => (forall m :: m in infos ==> m.id != "") && LoginContract(infos, statuses, hist)
      case Prune(threadIDs) =>
        forall t :: t in threadIDs && t in store.threads && |store.threads[t].messageIDs| > DEFAULT_NUMBER_PER_THREAD ==>
          NewestFirst(store.threads[t].messageIDs, HistoryOf(hist, t))
      case SendSuccess(localID, serverID, t, _) => AckTouches(store, localID, serverID, t, HistoryOf(hist, t))
      case ReactionFailed(localID, _) => IsLocal(localID)
      case _ => true
  }

  ghost predicate DeliveryContract(inc: Incoming, u: Store, hist: History) {
    forall t :: t in GroupKeys(inc.arrived) || t in u.threads ==> Contract(inc, u, t, HistoryOf(hist, t))
  }

  lemma DeliveryContiguous(store: Store, action: Action, p: Payload, env: Env, hist: History)
    requires ValidEnv(env) && WF(store) && MergeFits(store, p.infos, p.statuses, env)
    requires ValidHistory(hist) && AllContiguous(store, hist) && OneThread(store.messages)
    requires Updated(store, env).Ok? && Arriving(store, p.infos, p.statuses, env).Ok? ==>
      DeliveryContract(Arriving(store, p.infos, p.statuses, env).value, Updated(store, env).value.store, hist)
    ensures ReduceDelivery(store, action, p, env).Ok? && AllContiguous(ReduceDelivery(store, action, p, env).value.0, hist)
  {
    ArrivingFits(store, p.infos, p.statuses, env);
    UpdatedContiguous(store, env, hist);
    var u, inc := Updated(store, env).value.store, Arriving(store, p.infos, p.statuses, env).value;
    IncomingContiguous(inc, u, env, hist);
    MergeOf(store, p.infos, p.statuses, env);
    CheckpointKeeps(MergeNewMessages(store, p.infos, p.statuses, env), action, store);
    SameThreadsContiguous(MergeIncoming(inc, u, env).value, ReduceDelivery(store, action, p, env).value.0, hist);
  }

  lemma SameThreadsContiguous(a: Store, b: Store, hist: History)
    requires a.threads == b.threads && AllContiguous(a, hist)
    ensures AllContiguous(b, hist)
  {
  }

  lemma IncomingContiguous(inc: Incoming, u: Store, env: Env, hist: History)
    requires ValidEnv(env) && WF(u) && IncomingFits(inc, u) && AllContiguous(u, hist) && DeliveryContract(inc, u, hist)
    ensures MergeIncoming(inc, u, env).Ok? && AllContiguous(MergeIncoming(inc, u, env).value, hist)
  {
    MergeIncomingResult(inc, u, env);
    var r := MergeIncoming(inc, u, env).value;
    forall t | t in r.threads
      ensures Contiguous(r.threads[t], HistoryOf(hist, t))
    {
      MergedContiguous(inc, u, Scratch(inc, u, env), t, HistoryOf(hist, t));
    }
  }

  lemma LocalStepContiguous(store: Store, action: Action, env: Env, hist: History)
    requires ValidEnv(env) && WF(store) && ActionFits(store, action, env) && IsLocalStep(action)
    requires ValidHistory(hist) && AllContiguous(store, hist) && StepContract(store, action, env, hist)
    requires ReduceOther(store, action, env).Ok?
    ensures AllContiguous(ReduceOther(store, action, env).value.0, hist)
  {
    match action
    case SendStarted(message) => StartSendContiguous(store, EnsureRealized(message, env), env.now, hist);
    case ReactionFailed(localID, t) => ReactionFailedContiguous(store, localID, t, hist);
    case SendSuccess(localID, serverID, t, time) => SendSuccessContiguous(store, localID, serverID, t, time, hist);
    case CreateLocal(m) => AddLocalContiguous(store, EnsureRealized(m, env), env.now, hist);
  }

  lemma OtherStepContiguous(store: Store, action: Action, env: Env, hist: History)
    requires ValidEnv(env) && WF(store) && ActionFits(store, action, env) && Delivered(action).None?
    requires ValidHistory(hist) && AllContiguous(store, hist) && OneThread(store.messages) && StepContract(store, action, env, hist)
    requires ReduceOther(store, action, env).Ok?
    ensures AllContiguous(ReduceOther(store, action, env).value.0, hist)
  {
    if IsLocalStep(action) {
      LocalStepContiguous(store, action, env, hist);
    } else {
      match action
      case LoginSuccess(infos, statuses, currentAsOf) => LoginContiguous(store, infos, statuses, currentAsOf, env, hist);
      case Deauthorize => UpdatedContiguous(store, env, hist);
      case Prune(threadIDs) => PruneContiguous(store, threadIDs, env.now, hist);
      case ProcessServerRequests => ReassignContiguous(store, env, hist);
      case _ =>
    }
  }

  /** One action that keeps its contract keeps every thread's block. */
  lemma StepContiguous(store: Store, action: Action, env: Env, hist: History)
    requires ValidEnv(env) && WF(store) && ActionFits(store, action, env)
    requires ValidHistory(hist) && AllContiguous(store, hist) && OneThread(store.messages) && StepContract(store, action, env, hist)
    ensures Reduce(store, action, env).Ok? && WF(Reduce(store, action, env).value.0)
    ensures AllContiguous(Reduce(store, action, env).value.0, hist)
  {
    StepIntegrity(store, action, env);
    match Delivered(action)
    case Some(p) => DeliveryContiguous(store, action, p, env, hist);
    case None => OtherStepContiguous(store, action, env, hist);
  }

  /** A step, together with the server's history at that time. */
  datatype Moment = Moment(action: Action, env: Env, hist: History)

  /** `next` is what the reducer makes of a fitting action that keeps its contract. */
  ghost predicate Transition(store: Store, m: Moment, next: Store) {
    && ValidEnv(m.env) && ValidHistory(m.hist)
    && ActionFits(store, m.action, m.env) && LocalsFit(store, m.action, m.env) && StepContract(store, m.action, m.env, m.hist)
    && Reduce(store, m.action, m.env).Ok? && Reduce(store, m.action, m.env).value.0 == next
  }

  /** A run: a start, then moments, each with the store it leads to. */
  datatype Trace = Begin(store: Store, hist: History) | Next(before: Trace, moment: Moment, after: Store)

  function StoreAt(tr: Trace): Store {
    if tr.Begin? then tr.store else tr.after
  }

  function HistoryAt(tr: Trace): History {
    if tr.Begin? then tr.hist else tr.moment.hist
  }

  /** Started well, every moment a transition, the history only growing. */
  ghost predicate ValidTrace(tr: Trace) {
    match tr
    case Begin(store, hist) => WF(store) && OneThread(store.messages) && AllContiguous(store, hist)
    case Next(before, m, after) => ValidTrace(before) && Transition(StoreAt(before), m, after) && Extends(HistoryAt(before), m.hist)
  }

  lemma TransitionContiguous(store: Store, m: Moment, next: Store, hist: History)
    requires Transition(store, m, next) && WF(store) && OneThread(store.messages) && AllContiguous(store, hist) && Extends(hist, m.hist)
    ensures WF(next) && OneThread(next.messages) && AllContiguous(next, m.hist)
  {
    ContiguityGrows(store, hist, m.hist);
    StepContiguous(store, m.action, m.env, m.hist);
    StepOneThread(store, m.action, m.env);
  }

  /** In every store a run reaches, the server messages held for each thread form one block of its
      history, from the first message if `startReached`. */
  lemma {:induction false} RunContiguity(tr: Trace)
    requires ValidTrace(tr)
    ensures WF(StoreAt(tr)) && AllContiguous(StoreAt(tr), HistoryAt(tr))
    ensures OneThread(StoreAt(tr).messages)
  {
    match tr
    case Begin(_, _) =>
    case Next(before, m, after) =>
      RunContiguity(before);
      TransitionContiguous(StoreAt(before), m, after, HistoryAt(before));
  }

  // ----- one local ID in two threads -----

  // Server message 7 of a realized thread carries the local ID of a message still listed in the pending
  // thread.  The merge keeps the pending copy in place of 7, and 7 is missing from the held block.

  function SharedMessages(p: string, n: string): map<string, Message> {
    map["local1" := Message("", "local1", p, 5, Text, ""), "8" := Message("8", "", n, 4, Text, ""),
        "7" := Message("7", "local1", n, 3, Text, ""), "6" := Message("6", "", n, 2, Text, "")]
  }

  function SharedStore(p: string, n: string): Store {
    Store(SharedMessages(p, n),
          map[p := ThreadMessages(["local1"], true, 0, 0), n := ThreadMessages(["8", "7", "6"], true, 0, 0)], map[], 0)
  }

  function SharedHistory(n: string): History {
    map[n := ["6", "7", "8"]]
  }

  /** The four IDs differ, and the local one is local. */
  lemma SharedIDs()
    ensures NoDup(["8", "7", "6"]) && "local1" !in ["8", "7", "6"]
    ensures IsLocal("local1") && !IsLocal("8") && !IsLocal("7") && !IsLocal("6")
  {
    assert |"local1"| == 6 && |"8"| == 1 && |"7"| == 1 && |"6"| == 1 && "8"[0] == '8' && "7"[0] == '7' && "6"[0] == '6';
    assert "local1"[..5] == "local";
  }

  lemma SharedStoreWF(p: string, n: string)
    requires IsPending(p) && !IsPending(n)
    ensures WF(SharedStore(p, n)) && !OneThread(SharedStore(p, n).messages)
  {
    SharedIDs();
    assert "8" in ["8", "7", "6"] && "7" in ["8", "7", "6"] && "6" in ["8", "7", "6"];
    assert SameLocal(SharedMessages(p, n)["local1"], SharedMessages(p, n)["7"]);
  }

  lemma SharedListCovers(thread: ThreadMessages, h: seq<string>)
    requires h == ["6", "7", "8"] && thread.messageIDs == ["8", "7", "6"]
    ensures Covers(thread, h, 0, 3)
  {
    var ids := thread.messageIDs;
    assert h[0..3] == h && ids[0] == h[2] && ids[1] == h[1] && ids[2] == h[0];
  }

  lemma SharedStoreHolds(p: string, n: string)
    requires IsPending(p) && !IsPending(n)
    ensures WF(SharedStore(p, n)) && ValidHistory(SharedHistory(n)) && AllContiguous(SharedStore(p, n), SharedHistory(n))
    ensures !OneThread(SharedStore(p, n).messages)
  {
    SharedStoreWF(p, n);
    assert |"8"| == 1 && |"7"| == 1 && |"6"| == 1 && "8"[0] == '8' && "7"[0] == '7' && "6"[0] == '6' && "local1"[..5] == "local";
    SharedListCovers(SharedStore(p, n).threads[n], SharedHistory(n)[n]);
    NothingHeldIsContiguous(SharedStore(p, n).threads[p], []);
  }

  function MovedMessages(n: string): map<string, Message> {
    map["local1" := Message("", "local1", n, 1, Text, ""), "8" := Message("8", "", n, 4, Text, ""),
        "7" := Message("7", "local1", n, 3, Text, ""), "6" := Message("6", "", n, 2, Text, "")]
  }

  lemma SharedMoved(p: string, n: string, p2r: map<string, string>, infos: map<string, RawThread>)
    requires p in p2r && p2r[p] == n && n != "" && n !in p2r && n in infos && infos[n].creationTime == 1
    ensures ReassignedMessages(SharedMessages(p, n), p2r, infos) == MovedMessages(n)
  {
    assert |"local1"| == 6 && |"8"| == 1 && |"7"| == 1 && |"6"| == 1;
  }

  /** What the merge makes of the two lists once the pending copy is dated to the thread's creation. */
  lemma SharedMerge(messages: map<string, Message>, n: string)
    requires messages == MovedMessages(n)
    ensures Merge(["local1"], ["8", "7", "6"], messages) == Ok(["8", "local1", "6"])
  {
    assert |"local1"| == 6 && |"8"| == 1 && |"7"| == 1 && |"6"| == 1 && "8"[0] == '8' && "7"[0] == '7' && "6"[0] == '6';
    var xs, ys := ["local1"], ["8", "7", "6"];
    assert ys[1..] == ["7", "6"] && ["7", "6"][1..] == ["6"] && xs[1..] == [];
    assert Merge([], ["6"], messages) == Ok(["6"]);
    assert Merge(xs, ["7", "6"], messages) == Prefixed(["local1"], Ok(["6"]));
    assert ["local1"] + ["6"] == ["local1", "6"] && ["8"] + ["local1", "6"] == ["8", "local1", "6"];
  }

  lemma SharedMessageLeavesBlock(p: string, n: string, env: Env)
    requires ValidEnv(env) && p in P2R(env) && P2R(env)[p] == n && n != ""
    requires n in env.threadInfos && env.threadInfos[n].creationTime == 1 && Visited(env.keys({p, n}), n, p)
    ensures WF(SharedStore(p, n)) && AllContiguous(SharedStore(p, n), SharedHistory(n))
    ensures Reassign(SharedStore(p, n), env).Ok?
    ensures var r := Reassign(SharedStore(p, n), env).value.store;
      && n in r.threads && r.threads[n].messageIDs == ["8", "local1", "6"]
      && !Contiguous(r.threads[n], SharedHistory(n)[n])
  {
    P2RSound(env);
    SharedStoreHolds(p, n);
    SharedMoved(p, n, P2R(env), env.threadInfos);
    SharedMerge(MovedMessages(n), n);
    SharedReassigned(SharedStore(p, n), p, n, env);
    MissingMiddle(Reassign(SharedStore(p, n), env).value.store.threads[n], SharedHistory(n)[n]);
  }

  lemma SharedReassigned(store: Store, p: string, n: string, env: Env)
    requires ValidEnv(env) && WF(store) && p in P2R(env) && P2R(env)[p] == n && n != "" && Visited(env.keys({p, n}), n, p)
    requires store.threads.Keys == {p, n}
    ensures Reassign(store, env).Ok? && n in Reassign(store, env).value.store.threads
    ensures MergeThreads(store.threads[p], store.threads[n], ReassignedMessages(store.messages, P2R(env), env.threadInfos))
         == Ok(Reassign(store, env).value.store.threads[n])
  {
    P2RSound(env);
    ReassignKeepsWF(store, env);
    var order, messages := env.keys({p, n}), ReassignedMessages(store.messages, P2R(env), env.threadInfos);
    assert Enumerates(order, {p, n});
    var i, j :| 0 <= i < j < |order| && order[i] == n && order[j] == p;
    ReassignOrderExact(store.threads, P2R(env), messages, order, p, n, i, j);
  }

  lemma MissingMiddle(thread: ThreadMessages, h: seq<string>)
    requires h == ["6", "7", "8"] && thread.messageIDs == ["8", "local1", "6"]
    ensures !Contiguous(thread, h)
  {
    assert |"local1"| == 6 && |"8"| == 1 && |"7"| == 1 && |"6"| == 1 && "8"[0] == '8' && "7"[0] == '7' && "6"[0] == '6';
    var ids := thread.messageIDs;
    assert ids[0] == "8" && ids[1] == "local1" && ids[2] == "6" && h[0] == "6" && h[1] == "7" && h[2] == "8";
    assert Holds(thread, "8") && Holds(thread, "6") && !Holds(thread, "7");
    forall lo, hi
      ensures !Covers(thread, h, lo, hi)
    {
      if IsBlock(h, lo, hi) {
        BlockMembers(h, lo, hi, "6");
        BlockMembers(h, lo, hi, "7");
        BlockMembers(h, lo, hi, "8");
      }
    }
  }
}
