/** The items of a chat, built from its messages: conversations, clusters and reactions
    (lib/selectors/chat-selectors.js). */
module ChatItems {
  import opened Collections

  datatype Content = Text | Media(empty: bool) | Robotext | Reaction(target: string, emoji: string, add: bool)

  /** `id` is "" for a local message that has none. */
  datatype Info = Info(id: string, creator: string, time: int, content: Content)

  /** A sidebar's first message shows the message that it was made from. */
  datatype Message = Plain(info: Info) | SidebarSource(info: Info, sourceMessage: Info)

  const FIVE_MINUTES := 5 * 60 * 1000

  predicate IsReaction(m: Message) {
    m.Plain? && m.info.content.Reaction?
  }

  function Original(m: Message): Info {
    if m.SidebarSource? then m.sourceMessage else m.info
  }

  predicate Composable(info: Info) {
    info.content.Text? || info.content.Media?
  }

  predicate Shown(m: Message) {
    !IsReaction(m) && !(Original(m).content.Media? && Original(m).content.empty)
  }

  /** The messages that become items, oldest first; `messages` has the newest first. */
  function Chronological(messages: seq<Message>): seq<Info> {
    if |messages| == 0 then []
    else
      var older := Chronological(messages[1..]);
      if Shown(messages[0]) then older + [Original(messages[0])] else older
  }

  // ----- conversations and clusters -----

  predicate StartsConversation(s: seq<Info>, i: nat)
    requires i < |s|
  {
    i == 0 || s[i].time >= s[i - 1].time + FIVE_MINUTES
  }

  predicate StartsCluster(s: seq<Info>, i: nat)
    requires i < |s|
  {
    StartsConversation(s, i) || !(Composable(s[i - 1]) && Composable(s[i]) && s[i - 1].creator == s[i].creator)
  }

  datatype Item = Item(
    info: Info,
    startsConversation: bool,
    startsCluster: bool,
    endsCluster: bool,
    reactions: map<string, set<string>>)

  /** Between a cluster's start and the next one, everything is composed by one user in one conversation. */
  lemma {:induction false} ClusterUniform(s: seq<Info>, i: nat, j: nat)
    requires i < j < |s| && forall k :: i < k <= j ==> !StartsCluster(s, k)
    ensures forall k :: i < k <= j ==> Composable(s[k]) && s[k].creator == s[i].creator && !StartsConversation(s, k)
    ensures Composable(s[i])
  {
    assert !StartsCluster(s, j);
    if i + 1 < j {
      ClusterUniform(s, i, j - 1);
    }
  }

  // ----- reactions -----

  type Reactions = map<string, map<string, set<string>>>

  /** The message is u's reaction with the emoji to the target. */
  predicate Reacts(m: Message, target: string, emoji: string, u: string) {
    IsReaction(m) && m.info.content.target == target && m.info.content.emoji == emoji && m.info.creator == u
  }

  /** The newest of u's reactions with the emoji to the target adds it. */
  predicate LatestAdds(messages: seq<Message>, target: string, emoji: string, u: string) {
    |messages| > 0 &&
    if Reacts(messages[0], target, emoji, u) then messages[0].info.content.add else LatestAdds(messages[1..], target, emoji, u)
  }

  lemma {:induction false} LatestAddsMeans(messages: seq<Message>, target: string, emoji: string, u: string)
    ensures LatestAdds(messages, target, emoji, u) <==>
      exists i :: 0 <= i < |messages| && Reacts(messages[i], target, emoji, u) && messages[i].info.content.add
               && forall j :: 0 <= j < i ==> !Reacts(messages[j], target, emoji, u)
  {
    if |messages| > 0 && !Reacts(messages[0], target, emoji, u) {
      var rest := messages[1..];
      LatestAddsMeans(rest, target, emoji, u);
      if LatestAdds(rest, target, emoji, u) {
        var i :| 0 <= i < |rest| && Reacts(rest[i], target, emoji, u) && rest[i].info.content.add
               && forall j :: 0 <= j < i ==> !Reacts(rest[j], target, emoji, u);
        assert forall j :: 0 < j < i + 1 ==> messages[j] == rest[j - 1];
        assert Reacts(messages[i + 1], target, emoji, u);
      }
      if i :| 0 <= i < |messages| && Reacts(messages[i], target, emoji, u) && messages[i].info.content.add
            && forall j :: 0 <= j < i ==> !Reacts(messages[j], target, emoji, u) {
        assert rest[i - 1] == messages[i];
        assert forall j :: 0 <= j < i - 1 ==> rest[j] == messages[j + 1];
      }
    }
  }

  function UsersOf(r: Reactions, target: string, emoji: string): set<string> {
    if target in r && emoji in r[target] then r[target][emoji] else {}
  }

  ghost predicate Collects(r: Reactions, messages: seq<Message>) {
    forall target, emoji, u :: u in UsersOf(r, target, emoji) <==> LatestAdds(messages, target, emoji, u)
  }

  function WithReaction(r: Reactions, info: Info): Reactions
    requires info.content.Reaction?
  {
    var Reaction(target, emoji, add) := info.content;
    var emojis := if target in r then r[target] else map[];
    var users := if emoji in emojis then emojis[emoji] else {};
    r[target := emojis[emoji := if add then users + {info.creator} else users - {info.creator}]]
  }

  lemma WithReactionUsers(r: Reactions, info: Info, target: string, emoji: string, u: string)
    requires info.content.Reaction?
    ensures u in UsersOf(WithReaction(r, info), target, emoji) <==>
      if Reacts(Plain(info), target, emoji, u) then info.content.add else u in UsersOf(r, target, emoji)
  {
  }

  /** The first loop of `createChatMessageItems`: a user reacts exactly if their latest reaction adds. */
  method CollectReactions(messages: seq<Message>) returns (r: Reactions)
    ensures Collects(r, messages)
  {
    r := map[];
    for i := |messages| downto 0
      invariant Collects(r, messages[i..])
    {
      var m := messages[i];
      assert messages[i..][1..] == messages[i + 1..] && messages[i..][0] == m;
      if IsReaction(m) {
        ghost var before := r;
        r := WithReaction(r, m.info);
        forall target, emoji, u
          ensures u in UsersOf(r, target, emoji) <==> LatestAdds(messages[i..], target, emoji, u)
        {
          WithReactionUsers(before, m.info, target, emoji, u);
        }
      }
    }
    assert messages[0..] == messages;
  }

  /** The reactions rendered with a message: those that someone has. */
  function Rendered(r: Reactions, info: Info): map<string, set<string>> {
    if info.id == "" || info.id !in r then map[]
    else map emoji | emoji in r[info.id] && r[info.id][emoji] != {} :: r[info.id][emoji]
  }

  lemma RenderedMeans(r: Reactions, messages: seq<Message>, info: Info, emoji: string, u: string)
    requires Collects(r, messages)
    ensures (emoji in Rendered(r, info) && u in Rendered(r, info)[emoji]) <==>
      info.id != "" && LatestAdds(messages, info.id, emoji, u)
  {
    assert u in UsersOf(r, info.id, emoji) <==> LatestAdds(messages, info.id, emoji, u);
  }

  // ----- the items -----

  function ItemFor(s: seq<Info>, i: nat, r: Reactions): Item
    requires i < |s|
  {
    Item(s[i], StartsConversation(s, i), StartsCluster(s, i), i == |s| - 1 || StartsCluster(s, i + 1), Rendered(r, s[i]))
  }

  /** The items of all messages but that the last one's cluster is still open. */
  ghost predicate BuiltSoFar(items: seq<Item>, s: seq<Info>, r: Reactions) {
    && |items| == |s|
    && forall i :: 0 <= i < |s| ==> items[i] == if i == |s| - 1 then ItemFor(s, i, r).(endsCluster := false) else ItemFor(s, i, r)
  }

  lemma BuiltOneMore(items: seq<Item>, s: seq<Info>, info: Info, r: Reactions)
    requires BuiltSoFar(items, s, r)
    ensures var t := s + [info];
      var closed := if |items| > 0 && StartsCluster(t, |s|) then items[|s| - 1 := items[|s| - 1].(endsCluster := true)] else items;
      BuiltSoFar(closed + [ItemFor(t, |s|, r).(endsCluster := false)], t, r)
  {
    var t := s + [info];
    assert forall i :: 0 <= i < |s| ==> StartsConversation(t, i) == StartsConversation(s, i) && StartsCluster(t, i) == StartsCluster(s, i);
  }

  /** The second loop: items from the oldest message to the newest; an item's cluster is closed by the
      item after it. */
  method BuildItems(messages: seq<Message>, r: Reactions) returns (items: seq<Item>)
    ensures BuiltSoFar(items, Chronological(messages), r)
  {
    items := [];
    var lastMessageInfo: Option<Info> := None;
    for i := |messages| downto 0
      invariant BuiltSoFar(items, Chronological(messages[i..]), r)
      invariant lastMessageInfo == if |items| == 0 then None else Some(items[|items| - 1].info)
    {
      var m := messages[i];
      assert messages[i..][1..] == messages[i + 1..] && messages[i..][0] == m;
      if !Shown(m) {
        continue;
      }
      ghost var s := Chronological(messages[i + 1..]);
      var info := Original(m);
      var startsConversation, startsCluster := true, true;
      if lastMessageInfo.Some? && lastMessageInfo.value.time + FIVE_MINUTES > info.time {
        startsConversation := false;
        if Composable(lastMessageInfo.value) && Composable(info) && lastMessageInfo.value.creator == info.creator {
          startsCluster := false;
        }
      }
      BuiltOneMore(items, s, info, r);
      if startsCluster && |items| > 0 {
        items := items[|items| - 1 := items[|items| - 1].(endsCluster := true)];
      }
      items := items + [Item(info, startsConversation, startsCluster, false, Rendered(r, info))];
      lastMessageInfo := Some(info);
    }
    assert messages[0..] == messages;
  }

  method Reverse<T>(s: seq<T>) returns (r: seq<T>)
    ensures |r| == |s| && forall i :: 0 <= i < |s| ==> r[i] == s[|s| - 1 - i]
  {
    r := [];
    for i := |s| downto 0
      invariant |r| == |s| - i && forall k :: 0 <= k < |r| ==> r[k] == s[|s| - 1 - k]
    {
      r := r + [s[i]];
    }
  }

  /** The items newest first, all clusters closed. */
  method NewestFirst(messages: seq<Message>, r: Reactions) returns (items: seq<Item>)
    ensures var s := Chronological(messages);
      |items| == |s| && forall i :: 0 <= i < |s| ==> items[i] == ItemFor(s, |s| - 1 - i, r)
  {
    var chronological := BuildItems(messages, r);
    if |chronological| > 0 {
      var last := |chronological| - 1;
      chronological := chronological[last := chronological[last].(endsCluster := true)];
    }
    items := Reverse(chronological);
  }

  /** One item per shown message, newest first, with the starts of its conversation and cluster; an item
      ends a cluster exactly if it is the newest or the next one starts one. */
  ghost predicate ClustersRight(items: seq<Item>, s: seq<Info>) {
    && |items| == |s|
    && (forall i :: 0 <= i < |s| ==>
          var item := items[|s| - 1 - i];
          && item.info == s[i]
          && item.startsConversation == StartsConversation(s, i)
          && item.startsCluster == StartsCluster(s, i))
    && (forall i :: 0 <= i < |items| ==> (items[i].endsCluster <==> i == 0 || items[i - 1].startsCluster))
    && (forall i :: 0 <= i < |items| && items[i].startsConversation ==> items[i].startsCluster)
  }

  /** A user is in the set of an emoji exactly if their latest such reaction to the message adds it, and
      no set is empty. */
  ghost predicate ReactionsRight(item: Item, messages: seq<Message>) {
    && (forall emoji :: emoji in item.reactions ==> item.reactions[emoji] != {})
    && (forall emoji, u :: (emoji in item.reactions && u in item.reactions[emoji])
          <==> item.info.id != "" && LatestAdds(messages, item.info.id, emoji, u))
  }

  lemma ItemsClusters(items: seq<Item>, s: seq<Info>, r: Reactions)
    requires |items| == |s| && forall i :: 0 <= i < |s| ==> items[i] == ItemFor(s, |s| - 1 - i, r)
    ensures ClustersRight(items, s)
  {
    forall i | 0 <= i < |s|
      ensures items[|s| - 1 - i] == ItemFor(s, i, r)
    {
      assert items[|s| - 1 - i] == ItemFor(s, |s| - 1 - (|s| - 1 - i), r);
    }
  }

  lemma ItemReactions(item: Item, messages: seq<Message>, r: Reactions)
    requires Collects(r, messages) && item.reactions == Rendered(r, item.info)
    ensures ReactionsRight(item, messages)
  {
    forall emoji, u
      ensures (emoji in item.reactions && u in item.reactions[emoji])
         <==> item.info.id != "" && LatestAdds(messages, item.info.id, emoji, u)
    {
      RenderedMeans(r, messages, item.info, emoji, u);
    }
  }

  datatype ChatMessageItem = MessageItem(item: Item) | Loader

  /** `createChatMessageItems`, for messages sorted newest first: the items, and the loader unless the
      start of the thread is reached. */
  method CreateChatMessageItems(messages: seq<Message>, hideSpinner: bool) returns (items: seq<Item>, all: seq<ChatMessageItem>)
    ensures ClustersRight(items, Chronological(messages))
    ensures forall i :: 0 <= i < |items| ==> ReactionsRight(items[i], messages)
    ensures |all| == |items| + if hideSpinner then 0 else 1
    ensures forall i :: 0 <= i < |items| ==> all[i] == MessageItem(items[i])
    ensures !hideSpinner ==> all[|items|] == Loader
  {
    var reactions := CollectReactions(messages);
    items := NewestFirst(messages, reactions);
    ItemsClusters(items, Chronological(messages), reactions);
    forall i | 0 <= i < |items|
      ensures ReactionsRight(items[i], messages)
    {
      ItemReactions(items[i], messages, reactions);
    }
    all := seq(|items|, i requires 0 <= i < |items| => MessageItem(items[i]));
    if !hideSpinner {
      all := all + [Loader];
    }
  }
}
