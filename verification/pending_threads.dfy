/** Pending thread IDs: printing, and the map from pending to realized threads
    (lib/shared/thread-utils.js:247-275, lib/selectors/thread-selectors.js:385-414). */
module PendingThreads {
  import opened Collections
  import opened MessageModel

  datatype Member = Member(id: string, hasRole: bool)

  /** `sourceMessageID` is "" when there is none.  `viewerRole` says the viewer has a role in the
      thread, `visible` that the viewer's VISIBLE permission is granted. */
  datatype RawThread = RawThread(
    id: string,
    threadType: nat,
    members: seq<Member>,
    sourceMessageID: string,
    creationTime: int,
    viewerRole: bool,
    visible: bool)

  function DecimalString(n: nat): (r: string)
    ensures r != ""
    decreases n
  {
    var last := ['0' + (n % 10) as char];
    if n < 10 then last else DecimalString(n / 10) + last
  }

  function InsertString(x: string, s: seq<string>): (r: seq<string>)
    ensures multiset(r) == multiset([x] + s)
  {
    if s == [] || StrLess(x, s[0]) then [x] + s
    else
      assert s == [s[0]] + s[1..];
      [s[0]] + InsertString(x, s[1..])
  }

  /** `[...ids].sort()` */
  function SortStrings(s: seq<string>): (r: seq<string>)
    ensures multiset(r) == multiset(s)
  {
    if s == [] then []
    else
      assert s == [s[0]] + s[1..];
      InsertString(s[0], SortStrings(s[1..]))
  }

  function Join(s: seq<string>, sep: string): string {
    if |s| == 0 then ""
    else if |s| == 1 then s[0]
    else s[0] + sep + Join(s[1..], sep)
  }

  function GetPendingThreadID(threadType: nat, memberIDs: seq<string>, sourceMessageID: string): (r: string)
    ensures IsPending(r)
  {
    var key := if sourceMessageID != "" then "sidebar/" + sourceMessageID else Join(SortStrings(memberIDs), "+");
    var typeString := if sourceMessageID != "" then "" else "type" + DecimalString(threadType) + "/";
    var r := "pending/" + typeString + key;
    assert r[..7] == "pending/"[..7] == "pending";
    r
  }

  function ActualMembers(members: seq<Member>): seq<string> {
    if |members| == 0 then []
    else
      var front, last := ActualMembers(members[..|members| - 1]), members[|members| - 1];
      if last.hasRole then front + [last.id] else front
  }

  function PendingIDOf(t: RawThread): (r: string)
    ensures IsPending(r)
  {
    GetPendingThreadID(t.threadType, ActualMembers(t.members), t.sourceMessageID)
  }

  /** The loop of `pendingToRealizedThreadIDsSelector`, over the enumeration `keys` of `infos`. */
  function PendingToRealized(infos: map<string, RawThread>, keys: seq<string>): (r: map<string, string>)
    requires forall k :: k in keys ==> k in infos
    ensures forall p :: p in r ==> r[p] in keys
  {
    if |keys| == 0 then map[]
    else
      var front, k := PendingToRealized(infos, keys[..|keys| - 1]), keys[|keys| - 1];
      assert keys == keys[..|keys| - 1] + [k];
      var p := PendingIDOf(infos[k]);
      if IsPending(k) then front
      else if p !in front || front[p] == "" || infos[front[p]].creationTime > infos[k].creationTime then front[p := k]
      else front
  }

  lemma {:induction false} ValuePrintsAsKey(infos: map<string, RawThread>, keys: seq<string>, p: string)
    requires (forall k :: k in keys ==> k in infos) && p in PendingToRealized(infos, keys)
    ensures var k := PendingToRealized(infos, keys)[p]; !IsPending(k) && PendingIDOf(infos[k]) == p && IsPending(p)
  {
    var front, last := keys[..|keys| - 1], keys[|keys| - 1];
    assert keys == front + [last];
    if IsPending(last) || p != PendingIDOf(infos[last]) || PendingToRealized(infos, keys)[p] != last {
      ValuePrintsAsKey(infos, front, p);
    }
  }

  lemma {:induction false} RealizedIsMapped(infos: map<string, RawThread>, keys: seq<string>, i: nat)
    requires (forall k :: k in keys ==> k in infos) && i < |keys| && !IsPending(keys[i])
    ensures PendingIDOf(infos[keys[i]]) in PendingToRealized(infos, keys)
  {
    var front, last := keys[..|keys| - 1], keys[|keys| - 1];
    assert keys == front + [last];
    if i < |front| {
      RealizedIsMapped(infos, front, i);
    }
  }

  /** A pending ID is realized by a thread that prints as it, and every realized thread's pending ID
      is realized. */
  lemma PendingToRealizedSound(infos: map<string, RawThread>, keys: seq<string>)
    requires forall k :: k in keys ==> k in infos
    ensures var r := PendingToRealized(infos, keys);
      && (forall p :: p in r ==> !IsPending(r[p]) && PendingIDOf(infos[r[p]]) == p && IsPending(p))
      && (forall k :: k in keys && !IsPending(k) ==> PendingIDOf(infos[k]) in r)
  {
    var r := PendingToRealized(infos, keys);
    forall p | p in r
      ensures !IsPending(r[p]) && PendingIDOf(infos[r[p]]) == p && IsPending(p)
    {
      ValuePrintsAsKey(infos, keys, p);
    }
    forall k | k in keys && !IsPending(k)
      ensures PendingIDOf(infos[k]) in r
    {
      var i: nat :| i < |keys| && keys[i] == k;
      RealizedIsMapped(infos, keys, i);
    }
  }

  /** The thread chosen for a pending ID is one of minimal creation time among those realizing it. */
  lemma {:induction false} PendingToRealizedPicksOldest(infos: map<string, RawThread>, keys: seq<string>, k: string)
    requires forall x :: x in keys ==> x in infos && x != ""
    requires k in keys && !IsPending(k)
    ensures var r := PendingToRealized(infos, keys);
      PendingIDOf(infos[k]) in r && infos[r[PendingIDOf(infos[k])]].creationTime <= infos[k].creationTime
  {
    var front := keys[..|keys| - 1];
    assert keys == front + [keys[|keys| - 1]];
    PendingToRealizedSound(infos, keys);
    PendingToRealizedSound(infos, front);
    if k in front {
      PendingToRealizedPicksOldest(infos, front, k);
    }
  }

  /** No realized thread is chosen for two pending IDs. */
  lemma PendingToRealizedInjective(infos: map<string, RawThread>, keys: seq<string>, p: string, q: string)
    requires forall x :: x in keys ==> x in infos
    requires p in PendingToRealized(infos, keys) && q in PendingToRealized(infos, keys)
    requires PendingToRealized(infos, keys)[p] == PendingToRealized(infos, keys)[q]
    ensures p == q
  {
    PendingToRealizedSound(infos, keys);
  }

  method PendingToRealizedThreadIDs(infos: map<string, RawThread>, keys: seq<string>) returns (result: map<string, string>)
    requires forall k :: k in keys ==> k in infos
    ensures result == PendingToRealized(infos, keys)
  {
    result := map[];
    for i := 0 to |keys|
      invariant result == PendingToRealized(infos, keys[..i])
    {
      assert keys[..i + 1][..i] == keys[..i];
      var k := keys[i];
      if !IsPending(k) {
        var p := PendingIDOf(infos[k]);
        var existing := if p in result then result[p] else "";
        if existing == "" || infos[existing].creationTime > infos[k].creationTime {
          result := result[p := k];
        }
      }
    }
    assert keys[..|keys|] == keys;
  }
}
