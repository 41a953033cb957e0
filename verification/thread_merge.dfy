/** The two-pointer merge of two thread lists (lib/shared/message-utils.js:440-496). */
module ThreadMerge {
  import opened Collections
  import opened MessageModel

  /** Two listed messages are the same message: equal server ID or equal local ID. */
  predicate SameMessage(a: Message, b: Message) {
    (a.id != "" && b.id != "" && a.id == b.id) || (a.localID != "" && b.localID != "" && a.localID == b.localID)
  }

  function Prefixed(prefix: seq<string>, rest: Outcome<seq<string>>): Outcome<seq<string>> {
    match rest
    case Ok(ids) => Ok(prefix + ids)
    case Throw => Throw
  }

  lemma PrefixedTwice(a: seq<string>, b: seq<string>, rest: Outcome<seq<string>>)
    ensures Prefixed(a, Prefixed(b, rest)) == Prefixed(a + b, rest)
    ensures Prefixed([], rest) == rest
  {
    if rest.Ok? {
      assert a + (b + rest.value) == (a + b) + rest.value;
      assert [] + rest.value == rest.value;
    }
  }

  /** What the merge produces from the two tails that are still unread. */
  function Merge(xs: seq<string>, ys: seq<string>, messages: map<string, Message>): Outcome<seq<string>>
    decreases |xs| + |ys|
  {
    if |xs| == 0 then Ok(ys)
    else if |ys| == 0 then Ok(xs)
    else if xs[0] == ys[0] then Prefixed([xs[0]], Merge(xs[1..], ys[1..], messages))
    else if xs[0] !in messages || ys[0] !in messages then Throw
    else if SameMessage(messages[xs[0]], messages[ys[0]]) then Prefixed([xs[0]], Merge(xs[1..], ys[1..], messages))
    else if messages[xs[0]].time < messages[ys[0]].time then Prefixed([ys[0]], Merge(xs, ys[1..], messages))
    else Prefixed([xs[0]], Merge(xs[1..], ys, messages))
  }

  function MergeThreads(first: ThreadMessages, second: ThreadMessages, messages: map<string, Message>): Outcome<ThreadMessages> {
    var ids :- Merge(first.messageIDs, second.messageIDs, messages);
    Ok(ThreadMessages(ids, first.startReached && second.startReached,
                      Max(first.lastNavigatedTo, second.lastNavigatedTo), Max(first.lastPruned, second.lastPruned)))
  }

  method MergeThreadMessageInfos(first: ThreadMessages, second: ThreadMessages, messages: map<string, Message>)
    returns (r: Outcome<ThreadMessages>)
    ensures r == MergeThreads(first, second, messages)
  {
    var xs, ys := first.messageIDs, second.messageIDs;
    var i, j, merged := 0, 0, [];
    assert xs[0..] == xs && ys[0..] == ys;
    PrefixedTwice([], [], Merge(xs, ys, messages));
    while i < |xs| || j < |ys|
      invariant 0 <= i <= |xs| && 0 <= j <= |ys|
      invariant Merge(xs, ys, messages) == Prefixed(merged, Merge(xs[i..], ys[j..], messages))
      decreases |xs| - i + |ys| - j
    {
      ghost var restX, restY := xs[i..], ys[j..];
      ghost var i0, j0, merged0 := i, j, merged;
      if i == |xs| {
        assert restY == [ys[j]] + ys[j + 1..];
        merged := merged + [ys[j]];
        j := j + 1;
      } else if j == |ys| {
        assert restX == [xs[i]] + xs[i + 1..];
        merged := merged + [xs[i]];
        i := i + 1;
      } else if xs[i] == ys[j] {
        merged := merged + [xs[i]];
        i, j := i + 1, j + 1;
      } else if xs[i] !in messages || ys[j] !in messages {
        return Throw;
      } else if SameMessage(messages[xs[i]], messages[ys[j]]) {
        merged := merged + [xs[i]];
        i, j := i + 1, j + 1;
      } else if messages[xs[i]].time < messages[ys[j]].time {
        merged := merged + [ys[j]];
        j := j + 1;
      } else {
        merged := merged + [xs[i]];
        i := i + 1;
      }
      assert i == i0 + 1 ==> restX[1..] == xs[i..];
      assert j == j0 + 1 ==> restY[1..] == ys[j..];
      PrefixedTwice(merged0, [merged[|merged0|]], Merge(xs[i..], ys[j..], messages));
      assert merged == merged0 + [merged[|merged0|]];
    }
    assert xs[i..] == [] && ys[j..] == [];
    assert merged + [] == merged;
    r := Ok(ThreadMessages(merged, first.startReached && second.startReached,
                           Max(first.lastNavigatedTo, second.lastNavigatedTo), Max(first.lastPruned, second.lastPruned)));
  }

  /** `id` is in the list, or the list holds another ID of the same message. */
  ghost predicate Represented(id: string, ids: seq<string>, messages: map<string, Message>) {
    id in ids || (id in messages && exists other :: other in ids && other in messages && SameMessage(messages[other], messages[id]))
  }

  /** The merge succeeds when every listed ID is stored; its result takes IDs from the inputs only,
      keeps every first-list ID, and drops a second-list ID only for another ID of the same message. */
  lemma {:induction false} MergeMembers(xs: seq<string>, ys: seq<string>, messages: map<string, Message>)
    requires forall id :: id in xs || id in ys ==> id in messages
    ensures var r := Merge(xs, ys, messages);
      && r.Ok?
      && (forall id :: id in r.value ==> id in xs || id in ys)
      && (forall id :: id in xs ==> id in r.value)
      && (forall id :: id in ys ==> Represented(id, r.value, messages))
    decreases |xs| + |ys|
  {
    if |xs| > 0 && |ys| > 0 {
      assert xs == [xs[0]] + xs[1..] && ys == [ys[0]] + ys[1..];
      if xs[0] == ys[0] || SameMessage(messages[xs[0]], messages[ys[0]]) {
        MergeMembers(xs[1..], ys[1..], messages);
      } else if messages[xs[0]].time < messages[ys[0]].time {
        MergeMembers(xs, ys[1..], messages);
      } else {
        MergeMembers(xs[1..], ys, messages);
      }
    }
  }

  ghost predicate Disjoint(xs: seq<string>, ys: seq<string>) {
    forall id :: id in xs ==> id !in ys
  }

  /** Duplicate-free disjoint lists merge into a duplicate-free list. */
  lemma {:induction false} MergeNoDup(xs: seq<string>, ys: seq<string>, messages: map<string, Message>)
    requires forall id :: id in xs || id in ys ==> id in messages
    requires NoDup(xs) && NoDup(ys) && Disjoint(xs, ys)
    ensures Merge(xs, ys, messages).Ok? && NoDup(Merge(xs, ys, messages).value)
    decreases |xs| + |ys|
  {
    if |xs| > 0 && |ys| > 0 {
      assert xs == [xs[0]] + xs[1..] && ys == [ys[0]] + ys[1..];
      assert xs[0] !in ys && ys[0] !in xs && xs[0] !in xs[1..] && ys[0] !in ys[1..];
      if SameMessage(messages[xs[0]], messages[ys[0]]) {
        forall id | id in xs[1..]
          ensures id !in ys[1..]
        {
          assert id in xs && id !in ys;
        }
        MergeNoDup(xs[1..], ys[1..], messages);
        MergeMembers(xs[1..], ys[1..], messages);
      } else if messages[xs[0]].time < messages[ys[0]].time {
        MergeNoDup(xs, ys[1..], messages);
        MergeMembers(xs, ys[1..], messages);
      } else {
        MergeNoDup(xs[1..], ys, messages);
        MergeMembers(xs[1..], ys, messages);
      }
    }
  }

  /** The second-list IDs that the merge leaves out in favour of the first list's copy of the message. */
  function Superseded(xs: seq<string>, ys: seq<string>, messages: map<string, Message>): seq<string>
    requires forall id :: id in xs || id in ys ==> id in messages
    decreases |xs| + |ys|
  {
    if |xs| == 0 || |ys| == 0 then []
    else if xs[0] == ys[0] then Superseded(xs[1..], ys[1..], messages)
    else if SameMessage(messages[xs[0]], messages[ys[0]]) then [ys[0]] + Superseded(xs[1..], ys[1..], messages)
    else if messages[xs[0]].time < messages[ys[0]].time then Superseded(xs, ys[1..], messages)
    else Superseded(xs[1..], ys, messages)
  }

  /** What disjoint lists merge into. */
  lemma {:induction false} MergeSuperseded(xs: seq<string>, ys: seq<string>, messages: map<string, Message>, id: string)
    requires (forall id :: id in xs || id in ys ==> id in messages) && NoDup(ys) && Disjoint(xs, ys)
    ensures Merge(xs, ys, messages).Ok? && (id in Superseded(xs, ys, messages) ==> id in ys)
    ensures id in Merge(xs, ys, messages).value <==> id in xs || (id in ys && id !in Superseded(xs, ys, messages))
    decreases |xs| + |ys|
  {
    if |xs| > 0 && |ys| > 0 {
      assert xs == [xs[0]] + xs[1..] && ys == [ys[0]] + ys[1..];
      assert xs[0] !in ys && ys[0] !in xs && ys[0] !in ys[1..];
      if SameMessage(messages[xs[0]], messages[ys[0]]) {
        DisjointTails(xs, ys);
        MergeSuperseded(xs[1..], ys[1..], messages, id);
      } else if messages[xs[0]].time < messages[ys[0]].time {
        MergeSuperseded(xs, ys[1..], messages, id);
      } else {
        MergeSuperseded(xs[1..], ys, messages, id);
      }
    }
  }

  lemma DisjointTails(xs: seq<string>, ys: seq<string>)
    requires |xs| > 0 && |ys| > 0 && Disjoint(xs, ys)
    ensures Disjoint(xs[1..], ys[1..])
  {
    forall id | id in xs[1..]
      ensures id !in ys[1..]
    {
      assert id in xs && id !in ys;
    }
  }

  ghost predicate Unrelated(xs: seq<string>, ys: seq<string>, messages: map<string, Message>) {
    forall x, y :: x in xs && y in ys && x in messages && y in messages ==> x != y && !SameMessage(messages[x], messages[y])
  }

  /** Of unrelated lists nothing is left out. */
  lemma {:induction false} UnrelatedDropsNone(xs: seq<string>, ys: seq<string>, messages: map<string, Message>)
    requires (forall id :: id in xs || id in ys ==> id in messages) && Unrelated(xs, ys, messages)
    ensures Superseded(xs, ys, messages) == []
    decreases |xs| + |ys|
  {
    if |xs| > 0 && |ys| > 0 {
      assert xs[0] in xs && ys[0] in ys;
      if messages[xs[0]].time < messages[ys[0]].time {
        UnrelatedDropsNone(xs, ys[1..], messages);
      } else {
        UnrelatedDropsNone(xs[1..], ys, messages);
      }
    }
  }

  ghost predicate TimeDescending(ids: seq<string>, messages: map<string, Message>) {
    && (forall id :: id in ids ==> id in messages)
    && forall i, j :: 0 <= i < j < |ids| ==> messages[ids[i]].time >= messages[ids[j]].time
  }

  /** The two heads are merged into one. */
  predicate Matched(x: string, y: string, messages: map<string, Message>)
    requires x in messages && y in messages
  {
    x == y || SameMessage(messages[x], messages[y])
  }

  /** Wherever the two pointers meet at one message, the first list's copy is not older than what comes
      next in the second list, unless that is merged too. */
  ghost predicate CopiesInOrder(xs: seq<string>, ys: seq<string>, messages: map<string, Message>)
    requires forall id :: id in xs || id in ys ==> id in messages
    decreases |xs| + |ys|
  {
    |xs| > 0 && |ys| > 0 ==>
      if Matched(xs[0], ys[0], messages) then
        && (|ys| > 1 ==> messages[ys[1]].time <= messages[xs[0]].time || (|xs| > 1 && Matched(xs[1], ys[1], messages)))
        && CopiesInOrder(xs[1..], ys[1..], messages)
      else if messages[xs[0]].time < messages[ys[0]].time then CopiesInOrder(xs, ys[1..], messages)
      else CopiesInOrder(xs[1..], ys, messages)
  }

  /** Where the two lists hold the same message, the first list's copy is not older. */
  ghost predicate FirstCopyNotOlder(xs: seq<string>, ys: seq<string>, messages: map<string, Message>) {
    forall x, y :: x in xs && y in ys && x in messages && y in messages && SameMessage(messages[x], messages[y]) ==>
      messages[x].time >= messages[y].time
  }

  lemma TimeDescendingTail(ids: seq<string>, messages: map<string, Message>)
    requires TimeDescending(ids, messages) && ids != []
    ensures TimeDescending(ids[1..], messages)
    ensures forall id :: id in ids ==> messages[id].time <= messages[ids[0]].time
  {
  }

  /** A list with an ID in front is time-descending exactly when the rest is and the ID bounds its head. */
  lemma TimeDescendingHead(id: string, rest: seq<string>, messages: map<string, Message>)
    requires id in messages
    ensures TimeDescending([id] + rest, messages) <==>
      TimeDescending(rest, messages) && (|rest| > 0 ==> messages[rest[0]].time <= messages[id].time)
  {
    var ids := [id] + rest;
    assert ids[1..] == rest;
    if TimeDescending(ids, messages) {
      TimeDescendingTail(ids, messages);
      assert |rest| > 0 ==> rest[0] == ids[1];
    }
  }

  function HeadOf(xs: seq<string>, ys: seq<string>, messages: map<string, Message>): string
    requires (|xs| > 0 || |ys| > 0) && forall id :: id in xs || id in ys ==> id in messages
  {
    if |xs| == 0 then ys[0]
    else if |ys| == 0 || Matched(xs[0], ys[0], messages) || messages[xs[0]].time >= messages[ys[0]].time then xs[0]
    else ys[0]
  }

  /** The head of a merge. */
  lemma MergeHead(xs: seq<string>, ys: seq<string>, messages: map<string, Message>)
    requires forall id :: id in xs || id in ys ==> id in messages
    ensures var r := Merge(xs, ys, messages);
      && r.Ok? && (|r.value| > 0 <==> |xs| > 0 || |ys| > 0)
      && (|r.value| > 0 ==> r.value[0] == HeadOf(xs, ys, messages))
  {
    MergeMembers(xs, ys, messages);
  }

  /** Two time-descending lists merge into a time-descending list exactly when copies are in order. */
  lemma {:induction false} MergeTimeDescending(xs: seq<string>, ys: seq<string>, messages: map<string, Message>)
    requires TimeDescending(xs, messages) && TimeDescending(ys, messages)
    ensures Merge(xs, ys, messages).Ok?
    ensures TimeDescending(Merge(xs, ys, messages).value, messages) <==> CopiesInOrder(xs, ys, messages)
    decreases |xs| + |ys|
  {
    if |xs| > 0 && |ys| > 0 {
      var x, y, xs', ys' := xs[0], ys[0], xs[1..], ys[1..];
      TimeDescendingTail(xs, messages);
      TimeDescendingTail(ys, messages);
      if Matched(x, y, messages) {
        MergeTimeDescending(xs', ys', messages);
        MergeHead(xs', ys', messages);
        TimeDescendingHead(x, Merge(xs', ys', messages).value, messages);
      } else if messages[x].time < messages[y].time {
        MergeTimeDescending(xs, ys', messages);
        MergeHead(xs, ys', messages);
        TimeDescendingHead(y, Merge(xs, ys', messages).value, messages);
      } else {
        MergeTimeDescending(xs', ys, messages);
        MergeHead(xs', ys, messages);
        TimeDescendingHead(x, Merge(xs', ys, messages).value, messages);
      }
    }
  }

  /** In particular where no first copy is older than its second. */
  lemma {:induction false} NewerCopiesInOrder(xs: seq<string>, ys: seq<string>, messages: map<string, Message>)
    requires TimeDescending(xs, messages) && TimeDescending(ys, messages) && FirstCopyNotOlder(xs, ys, messages)
    ensures CopiesInOrder(xs, ys, messages)
    decreases |xs| + |ys|
  {
    if |xs| > 0 && |ys| > 0 {
      TimeDescendingTail(xs, messages);
      TimeDescendingTail(ys, messages);
      assert xs == [xs[0]] + xs[1..] && ys == [ys[0]] + ys[1..];
      if Matched(xs[0], ys[0], messages) {
        assert xs[0] in xs && ys[0] in ys && messages[xs[0]].time >= messages[ys[0]].time;
        NewerCopiesInOrder(xs[1..], ys[1..], messages);
      } else if messages[xs[0]].time < messages[ys[0]].time {
        NewerCopiesInOrder(xs, ys[1..], messages);
      } else {
        NewerCopiesInOrder(xs[1..], ys, messages);
      }
    }
  }

  /** An older first copy of a shared message goes in front of a newer message of the second list. */
  lemma MergeOlderFirstCopyBreaksOrder()
    ensures var messages := map[
                  "local1" := Message("", "local1", "t", 1, Text, ""),
                  "7" := Message("7", "local1", "t", 3, Text, ""),
                  "6" := Message("6", "", "t", 2, Text, "")];
      && TimeDescending(["local1"], messages) && TimeDescending(["7", "6"], messages)
      && Merge(["local1"], ["7", "6"], messages) == Ok(["local1", "6"])
      && !TimeDescending(["local1", "6"], messages)
  {
    var messages := map[
      "local1" := Message("", "local1", "t", 1, Text, ""),
      "7" := Message("7", "local1", "t", 3, Text, ""),
      "6" := Message("6", "", "t", 2, Text, "")];
    var xs, ys := ["local1"], ["7", "6"];
    assert "7"[0] != "6"[0] && |"local1"| != |"7"| && |"local1"| != |"6"|;
    assert messages["local1"].time == 1 && messages["7"].time == 3 && messages["6"].time == 2;
    assert SameMessage(messages[xs[0]], messages[ys[0]]);
    assert xs[1..] == [] && ys[1..] == ["6"];
    assert Merge(xs, ys, messages) == Prefixed(["local1"], Merge([], ["6"], messages));
    assert ["local1"] + ["6"] == ["local1", "6"];
    assert messages[["local1", "6"][0]].time < messages[["local1", "6"][1]].time;
  }
}
