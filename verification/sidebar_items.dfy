/** Which sidebars the chat list shows under a thread (lib/selectors/chat-selectors.js). */
module SidebarItems {
  import opened Collections

  datatype Sidebar = Sidebar(unread: bool, lastUpdatedTime: int)

  const MAX_READ_SIDEBARS := 3
  const MAX_UNREAD_SIDEBARS := 5

  /** `unread` tells whether more unread sidebars exist than can be shown. */
  datatype SidebarItem = SidebarItem(sidebar: Sidebar) | SeeMore(unread: bool) | Spacer

  function Min(a: int, b: int): int {
    if a < b then a else b
  }

  predicate ReadRecent(s: Sidebar, threeDaysAgo: int) {
    !s.unread && s.lastUpdatedTime > threeDaysAgo
  }

  function CountUnread(all: seq<Sidebar>): nat {
    if |all| == 0 then 0 else CountUnread(all[..|all| - 1]) + (if all[|all| - 1].unread then 1 else 0)
  }

  function CountReadRecent(all: seq<Sidebar>, threeDaysAgo: int): nat {
    if |all| == 0 then 0
    else CountReadRecent(all[..|all| - 1], threeDaysAgo) + (if ReadRecent(all[|all| - 1], threeDaysAgo) then 1 else 0)
  }

  lemma {:induction false} CountsGrow(all: seq<Sidebar>, threeDaysAgo: int, i: nat)
    requires i <= |all|
    ensures CountUnread(all[..i]) <= CountUnread(all)
    ensures CountReadRecent(all[..i], threeDaysAgo) <= CountReadRecent(all, threeDaysAgo)
    ensures CountUnread(all) + CountReadRecent(all, threeDaysAgo) <= |all|
  {
    if |all| == 0 {
    } else if i == |all| {
      assert all[..i] == all;
      CountsGrow(all[..i - 1], threeDaysAgo, i - 1);
    } else {
      assert all[..|all| - 1][..i] == all[..i];
      CountsGrow(all[..|all| - 1], threeDaysAgo, i);
    }
  }

  /** The places of the first sidebars that are unread or recently updated, in order. */
  ghost predicate InOrder(places: seq<nat>, all: seq<Sidebar>, threeDaysAgo: int) {
    && (forall i, j :: 0 <= i < j < |places| ==> places[i] < places[j])
    && forall i :: 0 <= i < |places| ==> places[i] < |all| && (all[places[i]].unread || ReadRecent(all[places[i]], threeDaysAgo))
  }

  predicate SameKind(a: Sidebar, b: Sidebar, threeDaysAgo: int) {
    (a.unread && b.unread) || (ReadRecent(a, threeDaysAgo) && ReadRecent(b, threeDaysAgo))
  }

  /** No sidebar is passed over for a later one that is unread, or read, like it. */
  ghost predicate FirstOfKind(places: seq<nat>, all: seq<Sidebar>, threeDaysAgo: int) {
    forall i, k :: 0 <= i < |places| && 0 <= k < places[i] < |all| && SameKind(all[k], all[places[i]], threeDaysAgo) ==> k in places
  }

  lemma PickOneMore(places: seq<nat>, all: seq<Sidebar>, threeDaysAgo: int, i: nat)
    requires i < |all| && InOrder(places, all[..i], threeDaysAgo) && FirstOfKind(places, all, threeDaysAgo)
    requires all[i].unread || ReadRecent(all[i], threeDaysAgo)
    requires forall k :: 0 <= k < i && SameKind(all[k], all[i], threeDaysAgo) ==> k in places
    ensures InOrder(places + [i], all[..i + 1], threeDaysAgo) && FirstOfKind(places + [i], all, threeDaysAgo)
    ensures CountUnread(Picked(places + [i], all)) == CountUnread(Picked(places, all)) + (if all[i].unread then 1 else 0)
  {
    assert forall k :: k in places ==> k in places + [i];
    assert Picked(places + [i], all)[..|places|] == Picked(places, all);
  }

  function Picked(places: seq<nat>, all: seq<Sidebar>): seq<Sidebar>
    requires forall i :: 0 <= i < |places| ==> places[i] < |all|
  {
    seq(|places|, i requires 0 <= i < |places| => all[places[i]])
  }

  /** The loop of `createChatThreadItem`: read sidebars never crowd out unread ones, and both quotas are
      used up. */
  method PickSidebars(all: seq<Sidebar>, threeDaysAgo: int) returns (places: seq<nat>)
    ensures InOrder(places, all, threeDaysAgo) && FirstOfKind(places, all, threeDaysAgo)
    ensures CountUnread(Picked(places, all)) == Min(CountUnread(all), MAX_UNREAD_SIDEBARS)
    ensures |places| == CountUnread(Picked(places, all))
      + Min(CountReadRecent(all, threeDaysAgo), Max(0, MAX_READ_SIDEBARS - CountUnread(all)))
  {
    var numUnread := NumUnread(all);
    var readToShow := MAX_READ_SIDEBARS - numUnread;
    places := [];
    for i := 0 to |all|
      invariant Picking(places, all, i, threeDaysAgo, readToShow)
    {
      if |places| >= MAX_UNREAD_SIDEBARS {
        QuotasFull(all, i, threeDaysAgo);
        WidenOrder(places, all, i, threeDaysAgo);
        return;
      }
      places, readToShow := Consider(places, all, i, threeDaysAgo, readToShow);
    }
    assert all[..|all|] == all;
  }

  /** The state of the loop after the first i sidebars. */
  ghost predicate Picking(places: seq<nat>, all: seq<Sidebar>, i: nat, threeDaysAgo: int, readToShow: int)
    requires i <= |all|
  {
    && InOrder(places, all[..i], threeDaysAgo) && FirstOfKind(places, all, threeDaysAgo)
    && (forall k :: 0 <= k < i && all[k].unread ==> k in places)
    && (forall k :: 0 <= k < i && ReadRecent(all[k], threeDaysAgo) && k !in places ==> readToShow <= 0)
    && CountUnread(Picked(places, all)) == CountUnread(all[..i]) <= MAX_UNREAD_SIDEBARS
    && |places| == CountUnread(all[..i]) + QuotaUsed(all, i, threeDaysAgo)
    && readToShow == MAX_READ_SIDEBARS - CountUnread(all) - QuotaUsed(all, i, threeDaysAgo)
  }

  method Consider(places: seq<nat>, all: seq<Sidebar>, i: nat, threeDaysAgo: int, readToShow: int) returns (r: seq<nat>, left: int)
    requires i < |all| && |places| < MAX_UNREAD_SIDEBARS && Picking(places, all, i, threeDaysAgo, readToShow)
    ensures Picking(r, all, i + 1, threeDaysAgo, left)
  {
    UnreadStep(all, i, threeDaysAgo);
    QuotaStep(all, i, threeDaysAgo);
    r, left := places, readToShow;
    if all[i].unread || (all[i].lastUpdatedTime > threeDaysAgo && readToShow > 0) {
      PickOneMore(places, all, threeDaysAgo, i);
      r := places + [i];
      if !all[i].unread {
        left := readToShow - 1;
      }
    }
  }

  lemma WidenOrder(places: seq<nat>, all: seq<Sidebar>, i: nat, threeDaysAgo: int)
    requires i <= |all| && InOrder(places, all[..i], threeDaysAgo)
    ensures InOrder(places, all, threeDaysAgo)
  {
  }

  lemma UnreadStep(all: seq<Sidebar>, i: nat, threeDaysAgo: int)
    requires i < |all|
    ensures CountUnread(all[..i + 1]) == CountUnread(all[..i]) + (if all[i].unread then 1 else 0)
    ensures CountUnread(all[..i + 1]) <= CountUnread(all)
  {
    CountsGrow(all, threeDaysAgo, i + 1);
    assert all[..i + 1][..i] == all[..i];
  }

  lemma QuotaStep(all: seq<Sidebar>, i: nat, threeDaysAgo: int)
    requires i < |all|
    ensures QuotaUsed(all, i + 1, threeDaysAgo) == QuotaUsed(all, i, threeDaysAgo)
      + (if ReadRecent(all[i], threeDaysAgo) && QuotaUsed(all, i, threeDaysAgo) < MAX_READ_SIDEBARS - CountUnread(all) then 1 else 0)
  {
    assert all[..i + 1][..i] == all[..i];
    assert CountReadRecent(all[..i + 1], threeDaysAgo)
        == CountReadRecent(all[..i], threeDaysAgo) + (if ReadRecent(all[i], threeDaysAgo) then 1 else 0);
  }

  /** Five rows can only be full of unread sidebars, and then no read one has a place. */
  lemma QuotasFull(all: seq<Sidebar>, i: nat, threeDaysAgo: int)
    requires i <= |all| && CountUnread(all[..i]) <= MAX_UNREAD_SIDEBARS
    requires CountUnread(all[..i]) + QuotaUsed(all, i, threeDaysAgo) >= MAX_UNREAD_SIDEBARS
    ensures CountUnread(all[..i]) == MAX_UNREAD_SIDEBARS <= CountUnread(all)
    ensures QuotaUsed(all, i, threeDaysAgo) == 0 == Max(0, MAX_READ_SIDEBARS - CountUnread(all))
  {
    CountsGrow(all, threeDaysAgo, i);
  }

  /** How many read sidebars are shown among the first i. */
  function QuotaUsed(all: seq<Sidebar>, i: nat, threeDaysAgo: int): int
    requires i <= |all|
  {
    Min(CountReadRecent(all[..i], threeDaysAgo), Max(0, MAX_READ_SIDEBARS - CountUnread(all)))
  }

  method NumUnread(all: seq<Sidebar>) returns (n: nat)
    ensures n == CountUnread(all)
  {
    n := 0;
    for i := 0 to |all|
      invariant n == CountUnread(all[..i])
    {
      assert all[..i + 1][..i] == all[..i];
      if all[i].unread {
        n := n + 1;
      }
    }
    assert all[..|all|] == all;
  }

  method NumReadRecent(all: seq<Sidebar>, threeDaysAgo: int) returns (n: nat)
    ensures n == CountReadRecent(all, threeDaysAgo)
  {
    n := 0;
    for i := 0 to |all|
      invariant n == CountReadRecent(all[..i], threeDaysAgo)
    {
      assert all[..i + 1][..i] == all[..i];
      if ReadRecent(all[i], threeDaysAgo) {
        n := n + 1;
      }
    }
    assert all[..|all|] == all;
  }

  /** The sidebar rows: "see more" appears exactly if a sidebar is left out while some sidebar is unread
      or recent. */
  method CreateSidebarItems(all: seq<Sidebar>, threeDaysAgo: int) returns (items: seq<SidebarItem>, places: seq<nat>)
    ensures InOrder(places, all, threeDaysAgo) && FirstOfKind(places, all, threeDaysAgo)
    ensures CountUnread(Picked(places, all)) == Min(CountUnread(all), MAX_UNREAD_SIDEBARS)
    ensures |places| == CountUnread(Picked(places, all))
      + Min(CountReadRecent(all, threeDaysAgo), Max(0, MAX_READ_SIDEBARS - CountUnread(all)))
    ensures var shown := |places|;
      var seeMore := shown < |all| && CountUnread(all) + CountReadRecent(all, threeDaysAgo) > 0;
      && items == seq(shown, i requires 0 <= i < shown => SidebarItem(all[places[i]]))
        + (if seeMore then [SeeMore(CountUnread(all) > MAX_UNREAD_SIDEBARS)] else [])
        + (if shown > 0 then [Spacer] else [])
  {
    places := PickSidebars(all, threeDaysAgo);
    var numUnread := NumUnread(all);
    var numReadRecent := NumReadRecent(all, threeDaysAgo);
    CountsGrow(all, threeDaysAgo, |all|);
    items := seq(|places|, i requires 0 <= i < |places| => SidebarItem(all[places[i]]));
    if |places| < numUnread + numReadRecent || (|places| < |all| && |places| > 0) {
      items := items + [SeeMore(numUnread > MAX_UNREAD_SIDEBARS)];
    }
    if |items| != 0 {
      items := items + [Spacer];
    }
  }
}
