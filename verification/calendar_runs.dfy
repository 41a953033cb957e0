/** When the calendar's reducer returns: the exact condition on each action, and a condition on what is
    delivered under which no action of a run ever throws. */
module CalendarRuns {
  import opened Collections
  import opened CalendarQuery
  import opened CalendarEntries
  import opened CalendarReducer

  ghost predicate AllDated(entries: Entries) {
    forall k :: k in entries ==> entries[k].day.On?
  }

  ghost predicate AllNamed(entries: Entries) {
    forall k :: k in entries ==> EntryID(entries[k]) != ""
  }

  ghost predicate AllIDs(news: seq<RawEntryInfo>) {
    forall i :: 0 <= i < |news| ==> news[i].id != ""
  }

  /** Every delivered entry has a server ID, and what is stored of it has a date unless it is hidden. */
  ghost predicate NewsFits(entries: Entries, news: seq<RawEntryInfo>, visible: set<string>) {
    && AllIDs(news)
    && forall k :: k in MergedNew(entries, news) && MergedNew(entries, news)[k].threadID in visible
         ==> MergedNew(entries, news)[k].day.On?
  }

  /** Grouping the entries by day throws exactly if one has no date. */
  lemma GroupingReturnsIff(entries: Entries, order: seq<string>)
    requires Enumerates(order, entries.Keys) && AllNamed(entries)
    ensures DaysToEntries(Values(entries, order)).Ok? <==> AllDated(entries)
  {
    var infos := Values(entries, order);
    forall i | 0 <= i < |infos|
      ensures infos[i] == entries[order[i]] && order[i] in order
    {
    }
    forall k | k in entries && !entries[k].day.On?
      ensures exists i :: 0 <= i < |infos| && !Groupable(infos[i])
    {
      assert k in order;
      var i :| 0 <= i < |order| && order[i] == k;
      assert !Groupable(infos[i]);
    }
  }

  lemma MergedNamed(entries: Entries, news: seq<RawEntryInfo>, visible: set<string>)
    requires AllNamed(entries) && AllIDs(news)
    ensures AllNamed(VisibleEntries(MergedAll(entries, news), visible))
  {
    var merged := VisibleEntries(MergedAll(entries, news), visible);
    forall k | k in merged
      ensures EntryID(merged[k]) != ""
    {
      MergedNewKeys(entries, news, k);
    }
  }

  lemma MergedDatedIff(entries: Entries, news: seq<RawEntryInfo>, visible: set<string>)
    requires AllDated(entries) && AllIDs(news)
    ensures AllDated(VisibleEntries(MergedAll(entries, news), visible)) <==> NewsFits(entries, news, visible)
  {
    var merged, delivered := VisibleEntries(MergedAll(entries, news), visible), MergedNew(entries, news);
    forall k | k in delivered && delivered[k].threadID in visible
      ensures k in merged && merged[k] == delivered[k]
    {
    }
  }

  /** A merge throws exactly if a delivered entry has no ID, or one that is visible ends without a date. */
  lemma MergeReturnsIff(entries: Entries, days: Option<Days>, news: seq<RawEntryInfo>, visible: set<string>, keys: Keys)
    requires ValidKeys(keys) && AllNamed(entries) && AllDated(entries)
    ensures Merged(entries, days, news, visible, keys).Ok? <==> NewsFits(entries, news, visible)
  {
    var merged := VisibleEntries(MergedAll(entries, news), visible);
    if AllIDs(news) {
      MergedNamed(entries, news, visible);
      MergedDatedIff(entries, news, visible);
      assert Enumerates(keys(merged), merged.Keys);
      GroupingReturnsIff(merged, keys(merged));
      MergeValue(entries, days, news, visible, keys, merged);
      if !SomeUpdated(entries, news, visible) {
        UnchangedCopies(entries, news);
        assert merged == entries;
      }
    }
  }

  /** A merge without missing IDs throws only when it recomputes the index. */
  lemma MergeValue(entries: Entries, days: Option<Days>, news: seq<RawEntryInfo>, visible: set<string>, keys: Keys, merged: Entries)
    requires ValidKeys(keys) && AllIDs(news) && merged == VisibleEntries(MergedAll(entries, news), visible)
    requires Enumerates(keys(merged), merged.Keys)
    ensures Merged(entries, days, news, visible, keys).Ok?
            <==> (days.Some? && !SomeUpdated(entries, news, visible)) || DaysToEntries(Values(merged, keys(merged))).Ok?
  {
  }

  // ----- one action -----

  /** What a state check leaves of the entries before it merges. */
  function LeftAfterCheck(entries: Entries, deleted: Option<seq<string>>): Entries {
    if deleted.Some? then entries - ToSet(deleted.value) else entries
  }

  /** When the action returns. */
  ghost predicate ActionReturns(store: EntryStore, action: Action, ctx: Context, keys: Keys)
    requires ValidKeys(keys)
  {
    var entries := store.entryInfos;
    match action
    case FetchEntries(raw) => NewsFits(entries, raw, ctx.visible)
    case UpdateQuerySuccess(_, raw, _) => NewsFits(entries, raw, ctx.visible)
    case CreateLocal(e) => e.localID != "" && e.day.On?
    case CreateSuccess(localID, serverID, updates) =>
      serverID in entries || localID in entries
      ==> NewsFits(RekeyedForCreate(entries, localID, serverID, keys), FromUpdates(updates), ctx.visible)
    case SaveSuccess(id, updates) => Authorized(entries, id, ctx.visible) ==> NewsFits(entries, FromUpdates(updates), ctx.visible)
    case DeleteStarted(serverID, localID) => DeletionTarget(entries, serverID, localID) != ""
    case DeleteSuccess(updates) => NewsFits(entries, FromUpdates(updates), ctx.visible)
    case RestoreSuccess(updates) => NewsFits(entries, FromUpdates(updates), ctx.visible)
    case LogIn(result) => result.Some? ==> NewsFits(entries, result.value, ctx.visible)
    case IncrementalSync(delta, updates, _) => NewsFits(entries, AddEach(delta, Carried(updates)), ctx.visible)
    case ProcessUpdates(updates) => NewsFits(entries, FromUpdates(updates), ctx.visible)
    case FullSync(raw) => NewsFits(entries, raw, ctx.visible)
    case ServerRequests(checkState) =>
      checkState.Some? && checkState.value.rawEntryInfos.Some?
      ==> NewsFits(LeftAfterCheck(entries, checkState.value.deleteEntryIDs), checkState.value.rawEntryInfos.value, ctx.visible)
    case _ => true
  }

  lemma MergeIntoReturns(entries: Entries, days: Option<Days>, news: seq<RawEntryInfo>, deletedIDs: seq<string>,
                         interaction: int, ctx: Context, keys: Keys)
    requires ValidKeys(keys) && AllNamed(entries) && AllDated(entries)
    ensures var r := MergeInto(entries, days, news, deletedIDs, interaction, ctx, keys);
      (r.Ok? <==> NewsFits(entries, news, ctx.visible)) && (r.Ok? ==> AllDated(r.value.entryInfos))
  {
    MergeReturnsIff(entries, days, news, ctx.visible, keys);
    if NewsFits(entries, news, ctx.visible) {
      MergedEntries(entries, days, news, ctx.visible, keys);
      MergedDatedIff(entries, news, ctx.visible);
    }
  }

  lemma RekeyedFits(entries: Entries, localID: string, serverID: string, keys: Keys)
    requires ValidKeys(keys) && AllNamed(entries) && AllDated(entries)
    ensures AllNamed(RekeyedForCreate(entries, localID, serverID, keys)) && AllDated(RekeyedForCreate(entries, localID, serverID, keys))
  {
    assert Enumerates(keys(entries), entries.Keys);
    var rekeyed := RekeyedForCreate(entries, localID, serverID, keys);
    forall k | k in rekeyed
      ensures EntryID(rekeyed[k]) != "" && rekeyed[k].day.On?
    {
      if serverID !in entries {
        var x := RekeyedKeys(entries, keys(entries), localID, serverID, k);
      }
    }
  }

  lemma CreateSuccessReturns(store: EntryStore, localID: string, serverID: string, updates: seq<Update>, ctx: Context, keys: Keys)
    requires ValidKeys(keys) && AllNamed(store.entryInfos) && AllDated(store.entryInfos)
    ensures var r := ReduceCreateSuccess(store, localID, serverID, updates, ctx, keys);
      && (r.Ok? <==> ActionReturns(store, CreateSuccess(localID, serverID, updates), ctx, keys))
      && (r.Ok? ==> AllDated(r.value.entryInfos))
  {
    RekeyedFits(store.entryInfos, localID, serverID, keys);
    MergeIntoReturns(RekeyedForCreate(store.entryInfos, localID, serverID, keys), None, FromUpdates(updates), [], ctx.now, ctx, keys);
  }

  lemma ServerRequestsReturns(store: EntryStore, checkState: Option<StateChanges>, ctx: Context, keys: Keys)
    requires ValidKeys(keys) && AllNamed(store.entryInfos) && AllDated(store.entryInfos)
    ensures var r := ReduceServerRequests(store, checkState, ctx, keys);
      && (r.Ok? <==> ActionReturns(store, ServerRequests(checkState), ctx, keys))
      && (r.Ok? ==> AllDated(r.value.entryInfos))
  {
    if checkState.Some? {
      var left := LeftAfterCheck(store.entryInfos, checkState.value.deleteEntryIDs);
      if checkState.value.rawEntryInfos.Some? {
        MergeIntoReturns(left, None, checkState.value.rawEntryInfos.value, [], store.lastUserInteractionCalendar, ctx, keys);
      } else {
        assert Enumerates(keys(left), left.Keys);
        GroupingReturnsIff(left, keys(left));
      }
    }
  }

  lemma StoreMergeReturns(store: EntryStore, news: seq<RawEntryInfo>, interaction: int, ctx: Context, keys: Keys)
    requires ValidKeys(keys) && AllNamed(store.entryInfos) && AllDated(store.entryInfos)
    ensures var r := MergeIntoStore(store, news, interaction, ctx, keys);
      (r.Ok? <==> NewsFits(store.entryInfos, news, ctx.visible)) && (r.Ok? ==> AllDated(r.value.entryInfos))
  {
    MergeIntoReturns(store.entryInfos, Some(store.daysToEntries), news, [], interaction, ctx, keys);
  }

  /** The action throws unless its condition holds, and what it returns is dated. */
  ghost predicate ReturnsAsSaid(store: EntryStore, action: Action, ctx: Context, keys: Keys)
    requires ValidKeys(keys)
  {
    var r := Reduce(store, action, ctx, keys);
    && (r.Ok? <==> ActionReturns(store, action, ctx, keys))
    && (r.Ok? && ActionFits(store, action, ctx, keys) ==> AllDated(r.value.entryInfos))
  }

  lemma DeliveryReturns(store: EntryStore, action: Action, ctx: Context, keys: Keys)
    requires ValidKeys(keys) && AllNamed(store.entryInfos) && AllDated(store.entryInfos)
    requires action.FetchEntries? || action.UpdateQuerySuccess? || action.LogIn? || action.IncrementalSync? || action.FullSync?
    ensures ReturnsAsSaid(store, action, ctx, keys)
  {
    var last := store.lastUserInteractionCalendar;
    match action
    case FetchEntries(raw) => StoreMergeReturns(store, raw, last, ctx, keys);
    case UpdateQuerySuccess(hasQuery, raw, deleted) =>
      MergeIntoReturns(store.entryInfos, Some(store.daysToEntries), raw, deleted, if hasQuery then ctx.now else last, ctx, keys);
    case LogIn(result) =>
      if result.Some? {
        StoreMergeReturns(store, result.value, last, ctx, keys);
      }
    case IncrementalSync(delta, updates, deleted) =>
      MergeIntoReturns(store.entryInfos, Some(store.daysToEntries), AddEach(delta, Carried(updates)), deleted, last, ctx, keys);
    case FullSync(raw) => StoreMergeReturns(store, raw, last, ctx, keys);
  }

  lemma DeleteReturns(store: EntryStore, updates: seq<Update>, ctx: Context, keys: Keys)
    requires ValidKeys(keys) && AllNamed(store.entryInfos) && AllDated(store.entryInfos)
    ensures ReturnsAsSaid(store, DeleteSuccess(updates), ctx, keys)
  {
    StoreMergeReturns(store, FromUpdates(updates), store.lastUserInteractionCalendar, ctx, keys);
  }

  lemma RestoreReturns(store: EntryStore, updates: seq<Update>, ctx: Context, keys: Keys)
    requires ValidKeys(keys) && AllNamed(store.entryInfos) && AllDated(store.entryInfos)
    ensures ReturnsAsSaid(store, RestoreSuccess(updates), ctx, keys)
  {
    StoreMergeReturns(store, FromUpdates(updates), ctx.now, ctx, keys);
  }

  lemma ProcessReturns(store: EntryStore, updates: seq<Update>, ctx: Context, keys: Keys)
    requires ValidKeys(keys) && AllNamed(store.entryInfos) && AllDated(store.entryInfos)
    ensures ReturnsAsSaid(store, ProcessUpdates(updates), ctx, keys)
  {
    StoreMergeReturns(store, FromUpdates(updates), store.lastUserInteractionCalendar, ctx, keys);
  }

  lemma SaveReturns(store: EntryStore, id: string, updates: seq<Update>, ctx: Context, keys: Keys)
    requires ValidKeys(keys) && AllNamed(store.entryInfos) && AllDated(store.entryInfos)
    ensures ReturnsAsSaid(store, SaveSuccess(id, updates), ctx, keys)
  {
    if Authorized(store.entryInfos, id, ctx.visible) {
      StoreMergeReturns(store, FromUpdates(updates), ctx.now, ctx, keys);
    }
  }

  /** Actions that merge nothing. */
  lemma OwnActionReturns(store: EntryStore, action: Action, ctx: Context, keys: Keys)
    requires ValidKeys(keys) && AllDated(store.entryInfos)
    requires action.Deauthorize? || action.UpdateQueryStarted? || action.CreateLocal? || action.ConcurrentModificationReset?
          || action.DeleteStarted? || action.FetchRevisions? || action.Unrelated?
    ensures ReturnsAsSaid(store, action, ctx, keys)
  {
  }

  /** On a store of dated entries an action throws exactly as the condition says, and what it returns is
      dated, unless it deletes an entry that is not there. */
  lemma StepReturnsIff(store: EntryStore, action: Action, ctx: Context, keys: Keys)
    requires ValidKeys(keys) && Consistent(store) && AllDated(store.entryInfos)
    ensures Reduce(store, action, ctx, keys).Ok? <==> ActionReturns(store, action, ctx, keys)
    ensures Reduce(store, action, ctx, keys).Ok? && ActionFits(store, action, ctx, keys)
            ==> AllDated(Reduce(store, action, ctx, keys).value.entryInfos)
  {
    assert AllNamed(store.entryInfos);
    assert ReturnsAsSaid(store, action, ctx, keys) by {
      match action
      case CreateSuccess(localID, serverID, updates) => CreateSuccessReturns(store, localID, serverID, updates, ctx, keys);
      case ServerRequests(checkState) => ServerRequestsReturns(store, checkState, ctx, keys);
      case SaveSuccess(id, updates) => SaveReturns(store, id, updates, ctx, keys);
      case DeleteSuccess(updates) => DeleteReturns(store, updates, ctx, keys);
      case RestoreSuccess(updates) => RestoreReturns(store, updates, ctx, keys);
      case ProcessUpdates(updates) => ProcessReturns(store, updates, ctx, keys);
      case FetchEntries(_) => DeliveryReturns(store, action, ctx, keys);
      case UpdateQuerySuccess(_, _, _) => DeliveryReturns(store, action, ctx, keys);
      case LogIn(_) => DeliveryReturns(store, action, ctx, keys);
      case IncrementalSync(_, _, _) => DeliveryReturns(store, action, ctx, keys);
      case FullSync(_) => DeliveryReturns(store, action, ctx, keys);
      case _ => OwnActionReturns(store, action, ctx, keys);
    }
  }

  // ----- runs -----

  ghost predicate FromServer(news: seq<RawEntryInfo>) {
    forall i :: 0 <= i < |news| ==> news[i].id != "" && news[i].day.On?
  }

  /** What is delivered comes from the server, with an ID and a date; what the user creates has a local ID
      and a date. */
  ghost predicate WellDelivered(action: Action) {
    match action
    case FetchEntries(raw) => FromServer(raw)
    case UpdateQuerySuccess(_, raw, _) => FromServer(raw)
    case CreateLocal(e) => e.localID != "" && e.day.On?
    case CreateSuccess(_, _, updates) => FromServer(Carried(updates))
    case SaveSuccess(_, updates) => FromServer(Carried(updates))
    case DeleteSuccess(updates) => FromServer(Carried(updates))
    case RestoreSuccess(updates) => FromServer(Carried(updates))
    case LogIn(result) => result.Some? ==> FromServer(result.value)
    case IncrementalSync(delta, updates, _) => FromServer(delta) && FromServer(Carried(updates))
    case ProcessUpdates(updates) => FromServer(Carried(updates))
    case FullSync(raw) => FromServer(raw)
    case ServerRequests(checkState) =>
      checkState.Some? && checkState.value.rawEntryInfos.Some? ==> FromServer(checkState.value.rawEntryInfos.value)
    case _ => true
  }

  lemma {:induction false} AddedFromServer(infos: seq<RawEntryInfo>, more: seq<RawEntryInfo>)
    requires FromServer(infos) && FromServer(more)
    ensures FromServer(AddEach(infos, more))
  {
    if |more| > 0 {
      AddedFromServer(infos, more[..|more| - 1]);
    }
  }

  lemma {:induction false} FromServerFits(entries: Entries, news: seq<RawEntryInfo>, visible: set<string>)
    requires FromServer(news)
    ensures NewsFits(entries, news, visible)
    ensures forall k :: k in MergedNew(entries, news) ==> MergedNew(entries, news)[k].day.On?
  {
    if |news| > 0 {
      FromServerFits(entries, news[..|news| - 1], visible);
    }
  }

  lemma UpdatesFit(entries: Entries, updates: seq<Update>, visible: set<string>)
    requires FromServer(Carried(updates))
    ensures NewsFits(entries, FromUpdates(updates), visible)
  {
    AddedFromServer([], Carried(updates));
    FromServerFits(entries, FromUpdates(updates), visible);
  }

  lemma WellDeliveredReturns(store: EntryStore, action: Action, ctx: Context, keys: Keys)
    requires ValidKeys(keys) && Consistent(store) && ActionFits(store, action, ctx, keys) && WellDelivered(action)
    ensures ActionReturns(store, action, ctx, keys)
  {
    var entries := store.entryInfos;
    match action
    case FetchEntries(raw) => FromServerFits(entries, raw, ctx.visible);
    case UpdateQuerySuccess(_, raw, _) => FromServerFits(entries, raw, ctx.visible);
    case CreateSuccess(localID, serverID, updates) =>
      UpdatesFit(RekeyedForCreate(entries, localID, serverID, keys), updates, ctx.visible);
    case SaveSuccess(_, updates) => UpdatesFit(entries, updates, ctx.visible);
    case DeleteSuccess(updates) => UpdatesFit(entries, updates, ctx.visible);
    case RestoreSuccess(updates) => UpdatesFit(entries, updates, ctx.visible);
    case LogIn(result) =>
      if result.Some? {
        FromServerFits(entries, result.value, ctx.visible);
      }
    case IncrementalSync(delta, updates, _) =>
      AddedFromServer(delta, Carried(updates));
      FromServerFits(entries, AddEach(delta, Carried(updates)), ctx.visible);
    case ProcessUpdates(updates) => UpdatesFit(entries, updates, ctx.visible);
    case FullSync(raw) => FromServerFits(entries, raw, ctx.visible);
    case ServerRequests(checkState) =>
      if checkState.Some? && checkState.value.rawEntryInfos.Some? {
        FromServerFits(LeftAfterCheck(entries, checkState.value.deleteEntryIDs), checkState.value.rawEntryInfos.value, ctx.visible);
      }
    case _ =>
  }

  ghost predicate RunDelivered(run: Run) {
    match run
    case Start(store) => AllDated(store.entryInfos)
    case Then(before, action, _) => RunDelivered(before) && WellDelivered(action)
  }

  /** A run whose actions meet their conditions, on entries that the server gave an ID and a date, never
      throws, and its day index agrees with its entries at the end. */
  lemma {:induction false} RunReturns(run: Run, keys: Keys)
    requires ValidKeys(keys) && RunFits(run, keys) && RunDelivered(run)
    ensures Final(run, keys).Ok? && Consistent(Final(run, keys).value) && AllDated(Final(run, keys).value.entryInfos)
  {
    if run.Then? {
      RunReturns(run.before, keys);
      var store := Final(run.before, keys).value;
      WellDeliveredReturns(store, run.action, run.ctx, keys);
      StepReturnsIff(store, run.action, run.ctx, keys);
      StepConsistentIff(store, run.action, run.ctx, keys);
    }
  }
}
