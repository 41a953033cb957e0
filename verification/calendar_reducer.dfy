/** `reduceEntryInfos`: every action on the entry store, and the agreement of its day index with its
    entries over whole runs (lib/reducers/entry-reducer.js). */
module CalendarReducer {
  import opened Collections
  import opened CalendarQuery
  import opened CalendarEntries

  datatype StateChanges = StateChanges(rawEntryInfos: Option<seq<RawEntryInfo>>, deleteEntryIDs: Option<seq<string>>)

  /** The actions the reducer tells apart.  Deauthorize stands for log out, account deletion and a new
      session (which may reset the interaction time) and for thread deletion, leaving a thread and the
      three thread-settings actions (which do not). */
  datatype Action =
    | Deauthorize(resetsInteraction: bool)
    | FetchEntries(rawEntryInfos: seq<RawEntryInfo>)
    | UpdateQueryStarted
    | UpdateQuerySuccess(hasQuery: bool, rawEntryInfos: seq<RawEntryInfo>, deletedEntryIDs: seq<string>)
    | CreateLocal(entryInfo: RawEntryInfo)
    | CreateSuccess(localID: string, entryID: string, viewerUpdates: seq<Update>)
    | SaveSuccess(entryID: string, viewerUpdates: seq<Update>)
    | ConcurrentModificationReset(id: string, dbText: string)
    | DeleteStarted(serverID: string, localID: string)
    | DeleteSuccess(viewerUpdates: seq<Update>)
    | FetchRevisions(entryID: string, text: string, deleted: bool)
    | RestoreSuccess(viewerUpdates: seq<Update>)
    | LogIn(calendarResult: Option<seq<RawEntryInfo>>)
    | IncrementalSync(deltaEntryInfos: seq<RawEntryInfo>, newUpdates: seq<Update>, deletedEntryIDs: seq<string>)
    | ProcessUpdates(newUpdates: seq<Update>)
    | FullSync(rawEntryInfos: seq<RawEntryInfo>)
    | ServerRequests(checkState: Option<StateChanges>)
    | Unrelated

  /** What a step depends on besides the store: the threads in the filter list and the clock. */
  datatype Context = Context(visible: set<string>, now: int)

  function FromUpdates(updates: seq<Update>): seq<RawEntryInfo> {
    AddEach([], Carried(updates))
  }

  /** A merge into the given entries, then deletion marks. */
  function MergeInto(entries: Entries, days: Option<Days>, news: seq<RawEntryInfo>, deletedIDs: seq<string>,
                     interaction: int, ctx: Context, keys: Keys): Outcome<EntryStore>
    requires ValidKeys(keys)
  {
    var r :- Merged(entries, days, news, ctx.visible, keys);
    Ok(EntryStore(Marked(r.0, deletedIDs), r.1, interaction))
  }

  function MergeIntoStore(store: EntryStore, news: seq<RawEntryInfo>, interaction: int, ctx: Context, keys: Keys): Outcome<EntryStore>
    requires ValidKeys(keys)
  {
    MergeInto(store.entryInfos, Some(store.daysToEntries), news, [], interaction, ctx, keys)
  }

  function ReduceDeauthorize(store: EntryStore, interaction: int, ctx: Context): EntryStore {
    var kept := VisibleEntries(store.entryInfos, ctx.visible);
    if |kept| == |store.entryInfos| then store.(lastUserInteractionCalendar := interaction)
    else EntryStore(kept, FilterDays(store.daysToEntries, kept), interaction)
  }

  function ReduceCreateLocal(store: EntryStore, e: RawEntryInfo, now: int): Outcome<EntryStore> {
    if e.localID == "" || e.day.NoDay? then Throw
    else
      var day := e.day.number;
      var ids := ListOf(store.daysToEntries, day);
      Ok(EntryStore(store.entryInfos[e.localID := e], store.daysToEntries[day := Uniq(ids + [e.localID])], now))
  }

  /** `_mapKeys`: the entry with the localID moves to the serverID; of several, the last one visited stays. */
  function Rekeyed(entries: Entries, order: seq<string>, localID: string, serverID: string): Entries
    requires forall k :: k in order ==> k in entries
  {
    if |order| == 0 then map[]
    else
      var k := order[|order| - 1];
      Rekeyed(entries, order[..|order| - 1], localID, serverID)[(if entries[k].localID == localID then serverID else k) := entries[k]]
  }

  function RekeyedForCreate(entries: Entries, localID: string, serverID: string, keys: Keys): Entries
    requires ValidKeys(keys)
  {
    if serverID in entries then map k | k in entries && !(entries[k].id == "" && entries[k].localID == localID) :: entries[k]
    else assert Enumerates(keys(entries), entries.Keys); Rekeyed(entries, keys(entries), localID, serverID)
  }

  function ReduceCreateSuccess(store: EntryStore, localID: string, serverID: string, updates: seq<Update>, ctx: Context, keys: Keys): Outcome<EntryStore>
    requires ValidKeys(keys)
  {
    if serverID !in store.entryInfos && localID !in store.entryInfos then Ok(store)
    else MergeInto(RekeyedForCreate(store.entryInfos, localID, serverID, keys), None, FromUpdates(updates), [], ctx.now, ctx, keys)
  }

  /** The entry an optimistic deletion marks: the serverID's if it is stored, else the localID's. */
  function DeletionTarget(entries: Entries, serverID: string, localID: string): string {
    if serverID != "" && serverID in entries then serverID else localID
  }

  /** Spreading a missing entry leaves a record with `deleted` alone. */
  const NO_ENTRY := RawEntryInfo("", "", "", "", NoDay, 0, "", false)

  function ReduceDeleteStarted(store: EntryStore, serverID: string, localID: string, now: int): Outcome<EntryStore> {
    var entries, id := store.entryInfos, DeletionTarget(store.entryInfos, serverID, localID);
    if id == "" then Throw
    else
      var e := if id in entries then entries[id] else NO_ENTRY;
      Ok(EntryStore(entries[id := e.(deleted := true)], store.daysToEntries, now))
  }

  predicate Authorized(entries: Entries, id: string, visible: set<string>) {
    id in entries && entries[id].threadID in visible
  }

  function ReduceServerRequests(store: EntryStore, checkState: Option<StateChanges>, ctx: Context, keys: Keys): Outcome<EntryStore>
    requires ValidKeys(keys)
  {
    if checkState.None? || (checkState.value.rawEntryInfos.None? && checkState.value.deleteEntryIDs.None?) then Ok(store)
    else
      var raw, deleted := checkState.value.rawEntryInfos, checkState.value.deleteEntryIDs;
      var left := if deleted.Some? then store.entryInfos - ToSet(deleted.value) else store.entryInfos;
      if raw.Some? then MergeInto(left, None, raw.value, [], store.lastUserInteractionCalendar, ctx, keys)
      else
        assert Enumerates(keys(left), left.Keys);
        var days :- DaysOf(left, keys);
        Ok(EntryStore(left, days, store.lastUserInteractionCalendar))
  }

  /** `reduceEntryInfos` */
  function Reduce(store: EntryStore, action: Action, ctx: Context, keys: Keys): Outcome<EntryStore>
    requires ValidKeys(keys)
  {
    var entries, last := store.entryInfos, store.lastUserInteractionCalendar;
    match action
    case Deauthorize(resets) => Ok(ReduceDeauthorize(store, if resets then 0 else last, ctx))
    case FetchEntries(raw) => MergeIntoStore(store, raw, last, ctx, keys)
    case UpdateQueryStarted => Ok(store.(lastUserInteractionCalendar := ctx.now))
    case UpdateQuerySuccess(hasQuery, raw, deleted) =>
      MergeInto(entries, Some(store.daysToEntries), raw, deleted, if hasQuery then ctx.now else last, ctx, keys)
    case CreateLocal(e) => ReduceCreateLocal(store, e, ctx.now)
    case CreateSuccess(localID, serverID, updates) => ReduceCreateSuccess(store, localID, serverID, updates, ctx, keys)
    case SaveSuccess(id, updates) =>
      if Authorized(entries, id, ctx.visible) then MergeIntoStore(store, FromUpdates(updates), ctx.now, ctx, keys) else Ok(store)
    case ConcurrentModificationReset(id, dbText) =>
      Ok(if Authorized(entries, id, ctx.visible) then store.(entryInfos := entries[id := entries[id].(text := dbText)]) else store)
    case DeleteStarted(serverID, localID) => ReduceDeleteStarted(store, serverID, localID, ctx.now)
    case DeleteSuccess(updates) => MergeIntoStore(store, FromUpdates(updates), last, ctx, keys)
    case FetchRevisions(id, text, deleted) =>
      Ok(if Authorized(entries, id, ctx.visible) then store.(entryInfos := entries[id := entries[id].(text := text, deleted := deleted)])
         else store)
    case RestoreSuccess(updates) => MergeIntoStore(store, FromUpdates(updates), ctx.now, ctx, keys)
    case LogIn(result) => if result.Some? then MergeIntoStore(store, result.value, last, ctx, keys) else Ok(store)
    case IncrementalSync(delta, updates, deleted) =>
      MergeInto(entries, Some(store.daysToEntries), AddEach(delta, Carried(updates)), deleted, last, ctx, keys)
    case ProcessUpdates(updates) => MergeIntoStore(store, FromUpdates(updates), last, ctx, keys)
    case FullSync(raw) => MergeIntoStore(store, raw, last, ctx, keys)
    case ServerRequests(checkState) => ReduceServerRequests(store, checkState, ctx, keys)
    case Unrelated => Ok(store)
  }

  // ----- what each action needs -----

  /** A local entry is fresh, or replaces one of the same day; it has no server ID yet. */
  predicate CreateLocalFits(store: EntryStore, e: RawEntryInfo) {
    EntryID(e) == e.localID && (e.localID in store.entryInfos ==> store.entryInfos[e.localID].day in [e.day, NoDay])
  }

  /** If the local entry is moved to its server ID, the updates carry the created entry, unless its
      thread is gone. */
  predicate CreateSuccessFits(store: EntryStore, localID: string, serverID: string, updates: seq<Update>, ctx: Context, keys: Keys)
    requires ValidKeys(keys)
  {
    || serverID in store.entryInfos
    || localID !in store.entryInfos
    || HasID(Carried(updates), serverID)
    || RekeyedHidden(store.entryInfos, localID, serverID, ctx.visible, keys)
  }

  predicate RekeyedHidden(entries: Entries, localID: string, serverID: string, visible: set<string>, keys: Keys)
    requires ValidKeys(keys)
  {
    var rekeyed := RekeyedForCreate(entries, localID, serverID, keys);
    serverID in rekeyed ==> rekeyed[serverID].threadID !in visible
  }

  predicate ActionFits(store: EntryStore, action: Action, ctx: Context, keys: Keys)
    requires ValidKeys(keys)
  {
    match action
    case CreateLocal(e) => CreateLocalFits(store, e)
    case CreateSuccess(localID, serverID, updates) => CreateSuccessFits(store, localID, serverID, updates, ctx, keys)
    case DeleteStarted(serverID, localID) => DeletionTarget(store.entryInfos, serverID, localID) in store.entryInfos
    case _ => true
  }

  // ----- one lemma per kind of step -----

  lemma MergeIntoConsistent(entries: Entries, days: Option<Days>, news: seq<RawEntryInfo>, deletedIDs: seq<string>,
                            interaction: int, ctx: Context, keys: Keys)
    requires ValidKeys(keys) && Keyed(entries) && (days.Some? ==> Indexed(entries, days.value))
    requires MergeInto(entries, days, news, deletedIDs, interaction, ctx, keys).Ok?
    ensures Consistent(MergeInto(entries, days, news, deletedIDs, interaction, ctx, keys).value)
  {
    MergedKeyed(entries, news, ctx.visible);
    MergeIndexed(entries, days, news, ctx.visible, keys);
    var r := Merged(entries, days, news, ctx.visible, keys).value;
    MarkedConsistent(r.0, r.1, deletedIDs);
  }

  lemma DeauthorizeConsistent(store: EntryStore, interaction: int, ctx: Context)
    requires Consistent(store)
    ensures Consistent(ReduceDeauthorize(store, interaction, ctx))
  {
    var kept := VisibleEntries(store.entryInfos, ctx.visible);
    FilteredIndexed(store.entryInfos, store.daysToEntries, kept);
  }

  lemma CreateLocalListed(entries: Entries, days: Days, e: RawEntryInfo, day: int)
    requires IndexedAt(entries, days, day) && e.day.On?
    requires e.localID in entries ==> entries[e.localID].day in [e.day, NoDay]
    ensures var d := e.day.number; IndexedAt(entries[e.localID := e], days[d := Uniq(ListOf(days, d) + [e.localID])], day)
  {
    var d, k := e.day.number, e.localID;
    var entries2, days2 := entries[k := e], days[d := Uniq(ListOf(days, d) + [k])];
    if day == d {
      UniqNoDup(ListOf(days, d) + [k]);
      assert ListOf(days2, day) == Uniq(ListOf(days, d) + [k]);
    } else {
      assert ListOf(days2, day) == ListOf(days, day);
    }
    forall x
      ensures x in ListOf(days2, day) <==> x in entries2 && entries2[x].day == On(day)
    {
      assert x in ListOf(days, day) <==> x in entries && entries[x].day == On(day);
    }
  }

  lemma CreateLocalConsistentIff(store: EntryStore, e: RawEntryInfo, now: int)
    requires Consistent(store) && ReduceCreateLocal(store, e, now).Ok?
    ensures Consistent(ReduceCreateLocal(store, e, now).value) <==> CreateLocalFits(store, e)
  {
    var r := ReduceCreateLocal(store, e, now).value;
    if CreateLocalFits(store, e) {
      forall day
        ensures IndexedAt(r.entryInfos, r.daysToEntries, day)
      {
        assert IndexedAt(store.entryInfos, store.daysToEntries, day);
        CreateLocalListed(store.entryInfos, store.daysToEntries, e, day);
      }
    } else {
      CreateLocalMisfits(store, e, now);
    }
  }

  lemma CreateLocalMisfits(store: EntryStore, e: RawEntryInfo, now: int)
    requires Consistent(store) && ReduceCreateLocal(store, e, now).Ok? && !CreateLocalFits(store, e)
    ensures !Consistent(ReduceCreateLocal(store, e, now).value)
  {
    var r, k := ReduceCreateLocal(store, e, now).value, e.localID;
    if EntryID(e) == k {
      var day := store.entryInfos[k].day.number;
      assert IndexedAt(store.entryInfos, store.daysToEntries, day) && k in ListOf(store.daysToEntries, day);
      assert k in ListOf(r.daysToEntries, day) && r.entryInfos[k].day != On(day);
      assert !IndexedAt(r.entryInfos, r.daysToEntries, day);
    } else {
      assert EntryID(r.entryInfos[k]) != k;
    }
  }

  lemma DeleteStartedConsistentIff(store: EntryStore, serverID: string, localID: string, now: int)
    requires Consistent(store) && ReduceDeleteStarted(store, serverID, localID, now).Ok?
    ensures Consistent(ReduceDeleteStarted(store, serverID, localID, now).value)
        <==> DeletionTarget(store.entryInfos, serverID, localID) in store.entryInfos
  {
    var r, id := ReduceDeleteStarted(store, serverID, localID, now).value, DeletionTarget(store.entryInfos, serverID, localID);
    if id in store.entryInfos {
      RewrittenIndexed(store.entryInfos, store.daysToEntries, id, r.entryInfos[id]);
    } else {
      assert EntryID(r.entryInfos[id]) != id;
    }
  }

  /** Rewriting an entry without touching its IDs and date. */
  lemma RewrittenIndexed(entries: Entries, days: Days, id: string, e: RawEntryInfo)
    requires Keyed(entries) && Indexed(entries, days) && id in entries
    requires e.day == entries[id].day && EntryID(e) == EntryID(entries[id])
    ensures Keyed(entries[id := e]) && Indexed(entries[id := e], days)
  {
    var rewritten := entries[id := e];
    forall day
      ensures IndexedAt(rewritten, days, day)
    {
      assert IndexedAt(entries, days, day);
    }
  }

  /** The key x lands at k. */
  predicate MovesTo(entries: Entries, x: string, localID: string, serverID: string, k: string)
    requires x in entries
  {
    k == if entries[x].localID == localID then serverID else x
  }

  lemma {:induction false} RekeyedKeys(entries: Entries, order: seq<string>, localID: string, serverID: string, k: string) returns (x: string)
    requires (forall y :: y in order ==> y in entries) && k in Rekeyed(entries, order, localID, serverID)
    ensures x in order && x in entries && MovesTo(entries, x, localID, serverID, k)
    ensures Rekeyed(entries, order, localID, serverID)[k] == entries[x]
  {
    var front, last := order[..|order| - 1], order[|order| - 1];
    assert order == front + [last];
    if MovesTo(entries, last, localID, serverID, k) {
      x := last;
    } else {
      x := RekeyedKeys(entries, front, localID, serverID, k);
    }
  }

  /** After the rekeying for a created entry, every key but the server ID holds its own entry, and the
      server ID holds one that still calls itself by another name. */
  lemma RekeyedForCreateKeys(entries: Entries, localID: string, serverID: string, keys: Keys, k: string)
    requires ValidKeys(keys) && Keyed(entries) && k in RekeyedForCreate(entries, localID, serverID, keys)
    ensures var r := RekeyedForCreate(entries, localID, serverID, keys);
      if k == serverID && serverID !in entries then EntryID(r[k]) != k else k != "" && EntryID(r[k]) == k
  {
    assert Enumerates(keys(entries), entries.Keys);
    if serverID !in entries {
      var x := RekeyedKeys(entries, keys(entries), localID, serverID, k);
    }
  }

  lemma CreateSuccessConsistentIff(store: EntryStore, localID: string, serverID: string, updates: seq<Update>, ctx: Context, keys: Keys)
    requires ValidKeys(keys) && Consistent(store) && ReduceCreateSuccess(store, localID, serverID, updates, ctx, keys).Ok?
    ensures Consistent(ReduceCreateSuccess(store, localID, serverID, updates, ctx, keys).value)
        <==> CreateSuccessFits(store, localID, serverID, updates, ctx, keys)
  {
    if serverID in store.entryInfos || localID in store.entryInfos {
      var rekeyed := RekeyedForCreate(store.entryInfos, localID, serverID, keys);
      FreshMergeConsistentIff(rekeyed, FromUpdates(updates), ctx.now, ctx, keys);
      CreatedKeyed(store, localID, serverID, updates, ctx, keys);
    }
  }

  /** A merge that recomputes the index is right exactly when its entries are keyed. */
  lemma FreshMergeConsistentIff(entries: Entries, news: seq<RawEntryInfo>, interaction: int, ctx: Context, keys: Keys)
    requires ValidKeys(keys) && MergeInto(entries, None, news, [], interaction, ctx, keys).Ok?
    ensures Consistent(MergeInto(entries, None, news, [], interaction, ctx, keys).value)
        <==> Keyed(VisibleEntries(MergedAll(entries, news), ctx.visible))
    ensures forall i :: 0 <= i < |news| ==> news[i].id != ""
  {
    MergedEntries(entries, None, news, ctx.visible, keys);
    MarkedNone(entries, None, news, ctx, keys);
    if Keyed(VisibleEntries(MergedAll(entries, news), ctx.visible)) {
      MergeIndexed(entries, None, news, ctx.visible, keys);
    }
  }

  lemma MarkedNone(entries: Entries, days: Option<Days>, news: seq<RawEntryInfo>, ctx: Context, keys: Keys)
    requires ValidKeys(keys) && Merged(entries, days, news, ctx.visible, keys).Ok?
    ensures var r := Merged(entries, days, news, ctx.visible, keys).value.0; Marked(r, []) == r
  {
  }

  /** After a created entry is merged, the store is keyed exactly when the server ID was delivered, or
      holds nothing visible. */
  lemma CreatedKeyed(store: EntryStore, localID: string, serverID: string, updates: seq<Update>, ctx: Context, keys: Keys)
    requires ValidKeys(keys) && Keyed(store.entryInfos) && (serverID in store.entryInfos || localID in store.entryInfos)
    requires forall i :: 0 <= i < |FromUpdates(updates)| ==> FromUpdates(updates)[i].id != ""
    ensures var rekeyed := RekeyedForCreate(store.entryInfos, localID, serverID, keys);
      Keyed(VisibleEntries(MergedAll(rekeyed, FromUpdates(updates)), ctx.visible))
      <==> CreateSuccessFits(store, localID, serverID, updates, ctx, keys)
  {
    var rekeyed := RekeyedForCreate(store.entryInfos, localID, serverID, keys);
    var news := FromUpdates(updates);
    var r := VisibleEntries(MergedAll(rekeyed, news), ctx.visible);
    AddEachIDs([], Carried(updates), serverID);
    MergedNewKeys(rekeyed, news, serverID);
    forall k | k in r && (k != serverID || serverID in store.entryInfos || HasID(news, serverID))
      ensures k != "" && EntryID(r[k]) == k
    {
      MergedNewKeys(rekeyed, news, k);
      if k !in MergedNew(rekeyed, news) {
        RekeyedForCreateKeys(store.entryInfos, localID, serverID, keys, k);
      }
    }
    if serverID in rekeyed && serverID !in store.entryInfos && !HasID(news, serverID) {
      RekeyedForCreateKeys(store.entryInfos, localID, serverID, keys, serverID);
      assert serverID in r <==> rekeyed[serverID].threadID in ctx.visible;
      assert serverID in r ==> r[serverID] == rekeyed[serverID];
    }
  }

  lemma ServerRequestsConsistent(store: EntryStore, checkState: Option<StateChanges>, ctx: Context, keys: Keys)
    requires ValidKeys(keys) && Consistent(store) && ReduceServerRequests(store, checkState, ctx, keys).Ok?
    ensures Consistent(ReduceServerRequests(store, checkState, ctx, keys).value)
  {
    if checkState.Some? && (checkState.value.rawEntryInfos.Some? || checkState.value.deleteEntryIDs.Some?) {
      var raw, deleted := checkState.value.rawEntryInfos, checkState.value.deleteEntryIDs;
      var left := if deleted.Some? then store.entryInfos - ToSet(deleted.value) else store.entryInfos;
      assert Keyed(left);
      if raw.Some? {
        MergeIntoConsistent(left, None, raw.value, [], store.lastUserInteractionCalendar, ctx, keys);
      } else {
        assert Enumerates(keys(left), left.Keys);
        GroupedIndexed(left, keys(left));
      }
    }
  }

  lemma StoreMergeConsistent(store: EntryStore, news: seq<RawEntryInfo>, interaction: int, ctx: Context, keys: Keys)
    requires ValidKeys(keys) && Consistent(store) && MergeIntoStore(store, news, interaction, ctx, keys).Ok?
    ensures Consistent(MergeIntoStore(store, news, interaction, ctx, keys).value)
  {
    MergeIntoConsistent(store.entryInfos, Some(store.daysToEntries), news, [], interaction, ctx, keys);
  }

  /** After every action the entries are stored under their own IDs and each day lists exactly the keys
      of its entries, if and only if the action meets the condition on it. */
  lemma StepConsistentIff(store: EntryStore, action: Action, ctx: Context, keys: Keys)
    requires ValidKeys(keys) && Consistent(store) && Reduce(store, action, ctx, keys).Ok?
    ensures Consistent(Reduce(store, action, ctx, keys).value) <==> ActionFits(store, action, ctx, keys)
  {
    var last := store.lastUserInteractionCalendar;
    match action
    case Deauthorize(resets) => DeauthorizeConsistent(store, if resets then 0 else last, ctx);
    case FetchEntries(raw) => StoreMergeConsistent(store, raw, last, ctx, keys);
    case UpdateQueryStarted =>
    case UpdateQuerySuccess(hasQuery, raw, deleted) =>
      MergeIntoConsistent(store.entryInfos, Some(store.daysToEntries), raw, deleted, if hasQuery then ctx.now else last, ctx, keys);
    case CreateLocal(e) => CreateLocalConsistentIff(store, e, ctx.now);
    case CreateSuccess(localID, serverID, updates) => CreateSuccessConsistentIff(store, localID, serverID, updates, ctx, keys);
    case SaveSuccess(id, updates) =>
      if Authorized(store.entryInfos, id, ctx.visible) {
        StoreMergeConsistent(store, FromUpdates(updates), ctx.now, ctx, keys);
      }
    case ConcurrentModificationReset(id, dbText) => RewriteStepConsistent(store, action, ctx, keys);
    case DeleteStarted(serverID, localID) => DeleteStartedConsistentIff(store, serverID, localID, ctx.now);
    case DeleteSuccess(updates) => StoreMergeConsistent(store, FromUpdates(updates), last, ctx, keys);
    case FetchRevisions(id, text, deleted) => RewriteStepConsistent(store, action, ctx, keys);
    case RestoreSuccess(updates) => StoreMergeConsistent(store, FromUpdates(updates), ctx.now, ctx, keys);
    case LogIn(result) =>
      if result.Some? {
        StoreMergeConsistent(store, result.value, last, ctx, keys);
      }
    case IncrementalSync(delta, updates, deleted) =>
      MergeIntoConsistent(store.entryInfos, Some(store.daysToEntries), AddEach(delta, Carried(updates)), deleted, last, ctx, keys);
    case ProcessUpdates(updates) => StoreMergeConsistent(store, FromUpdates(updates), last, ctx, keys);
    case FullSync(raw) => StoreMergeConsistent(store, raw, last, ctx, keys);
    case ServerRequests(checkState) => ServerRequestsConsistent(store, checkState, ctx, keys);
    case Unrelated =>
  }

  lemma RewriteStepConsistent(store: EntryStore, action: Action, ctx: Context, keys: Keys)
    requires ValidKeys(keys) && Consistent(store) && (action.ConcurrentModificationReset? || action.FetchRevisions?)
    ensures Reduce(store, action, ctx, keys).Ok? && Consistent(Reduce(store, action, ctx, keys).value)
  {
    var id := if action.ConcurrentModificationReset? then action.id else action.entryID;
    if Authorized(store.entryInfos, id, ctx.visible) {
      var e := Reduce(store, action, ctx, keys).value.entryInfos[id];
      RewrittenIndexed(store.entryInfos, store.daysToEntries, id, e);
    }
  }

  const LOCAL_ENTRY := RawEntryInfo("", "local0", "1", "", On(5), 0, "2", false)

  /** A created entry whose server copy is not delivered stays under the server ID while calling itself
      by its localID: its day lists a key that is not in the map. */
  lemma UncarriedCreateBreaksIndex(keys: Keys)
    requires ValidKeys(keys)
    ensures var store := EntryStore(map["local0" := LOCAL_ENTRY], map[5 := ["local0"]], 0);
      var r := ReduceCreateSuccess(store, "local0", "7", [], Context({"1"}, 0), keys);
      && Consistent(store)
      && r.Ok? && !Consistent(r.value)
  {
    var entries, days := map["local0" := LOCAL_ENTRY], map[5 := ["local0"]];
    forall day
      ensures IndexedAt(entries, days, day)
    {
    }
    assert Keyed(entries);
    LoneUncarried(EntryStore(entries, days, 0), LOCAL_ENTRY, keys);
  }

  lemma LoneUncarried(store: EntryStore, e: RawEntryInfo, keys: Keys)
    requires ValidKeys(keys) && Consistent(store) && store.entryInfos == map["local0" := e]
    requires e.id == "" && e.localID == "local0" && e.threadID == "1" && e.day.On?
    ensures var r := ReduceCreateSuccess(store, "local0", "7", [], Context({"1"}, 0), keys); r.Ok? && !Consistent(r.value)
  {
    assert FromUpdates([]) == [];
    LoneEntryMoves(e, keys);
    CreateSuccessConsistentIff(store, "local0", "7", [], Context({"1"}, 0), keys);
  }

  lemma LoneEntryMoves(e: RawEntryInfo, keys: Keys)
    requires ValidKeys(keys) && e.id == "" && e.localID == "local0" && e.threadID == "1" && e.day.On?
    ensures RekeyedForCreate(map["local0" := e], "local0", "7", keys) == map["7" := e]
    ensures Merged(map["7" := e], None, [], {"1"}, keys).Ok?
  {
    var entries, moved := map["local0" := e], map["7" := e];
    assert Enumerates(keys(entries), entries.Keys) && "7" !in entries;
    RekeyedHas(entries, keys(entries), "local0", "local0", "7");
    var rekeyed := Rekeyed(entries, keys(entries), "local0", "7");
    forall k | k in rekeyed
      ensures k == "7" && rekeyed[k] == e
    {
      var x := RekeyedKeys(entries, keys(entries), "local0", "7", k);
    }
    assert VisibleEntries(MergedAll(moved, []), {"1"}) == moved;
    assert Enumerates(keys(moved), moved.Keys);
  }

  lemma {:induction false} RekeyedHas(entries: Entries, order: seq<string>, x: string, localID: string, serverID: string)
    requires (forall y :: y in order ==> y in entries) && x in order && entries[x].localID == localID
    ensures serverID in Rekeyed(entries, order, localID, serverID)
  {
    var front, last := order[..|order| - 1], order[|order| - 1];
    assert order == front + [last];
    if x != last {
      RekeyedHas(entries, front, x, localID, serverID);
    }
  }

  // ----- runs -----

  datatype Run = Start(store: EntryStore) | Then(before: Run, action: Action, ctx: Context)

  /** The store a run ends in, Throw if an action threw. */
  function Final(run: Run, keys: Keys): Outcome<EntryStore>
    requires ValidKeys(keys)
  {
    match run
    case Start(store) => Ok(store)
    case Then(before, action, ctx) =>
      var store :- Final(before, keys);
      Reduce(store, action, ctx, keys)
  }

  ghost predicate RunFits(run: Run, keys: Keys)
    requires ValidKeys(keys)
  {
    match run
    case Start(store) => Consistent(store)
    case Then(before, action, ctx) =>
      RunFits(before, keys) && (Final(before, keys).Ok? ==> ActionFits(Final(before, keys).value, action, ctx, keys))
  }

  /** The day index agrees with the entries at the end of every run. */
  lemma {:induction false} RunConsistent(run: Run, keys: Keys)
    requires ValidKeys(keys) && RunFits(run, keys) && Final(run, keys).Ok?
    ensures Consistent(Final(run, keys).value)
  {
    if run.Then? {
      RunConsistent(run.before, keys);
      StepConsistentIff(Final(run.before, keys).value, run.action, run.ctx, keys);
    }
  }

  // ----- losing access -----

  ghost predicate AllVisible(store: EntryStore, visible: set<string>) {
    forall k :: k in store.entryInfos ==> store.entryInfos[k].threadID in visible
  }

  /** Losing access to threads hides exactly their entries; the comparison of sizes never keeps one. */
  lemma DeauthorizeExact(store: EntryStore, interaction: int, ctx: Context)
    ensures ReduceDeauthorize(store, interaction, ctx).entryInfos == VisibleEntries(store.entryInfos, ctx.visible)
    ensures AllVisible(ReduceDeauthorize(store, interaction, ctx), ctx.visible)
  {
    var kept := VisibleEntries(store.entryInfos, ctx.visible);
    if |kept| == |store.entryInfos| {
      SubsetOfSameSize(kept.Keys, store.entryInfos.Keys);
      assert |kept.Keys| == |store.entryInfos.Keys|;
    }
  }

  lemma SubsetOfSameSize<T>(a: set<T>, b: set<T>)
    requires a <= b
    ensures |a| == |b| ==> a == b
  {
    if a != b {
      var x :| x in b && x !in a;
      assert a <= b - {x};
      CardinalityOfSubset(a, b - {x});
    }
  }

  lemma CardinalityOfSubset<T>(a: set<T>, b: set<T>)
    requires a <= b
    ensures |a| <= |b|
  {
    assert b == a + (b - a);
  }

  /** Every action that merges leaves only entries of visible threads. */
  lemma MergesHide(store: EntryStore, action: Action, ctx: Context, keys: Keys)
    requires ValidKeys(keys) && Reduce(store, action, ctx, keys).Ok?
    requires action.FetchEntries? || action.UpdateQuerySuccess? || action.DeleteSuccess? || action.RestoreSuccess?
          || action.IncrementalSync? || action.ProcessUpdates? || action.FullSync?
    ensures AllVisible(Reduce(store, action, ctx, keys).value, ctx.visible)
  {
    var news := match action
      case FetchEntries(raw) => raw
      case UpdateQuerySuccess(_, raw, _) => raw
      case IncrementalSync(delta, updates, _) => AddEach(delta, Carried(updates))
      case FullSync(raw) => raw
      case DeleteSuccess(updates) => FromUpdates(updates)
      case RestoreSuccess(updates) => FromUpdates(updates)
      case ProcessUpdates(updates) => FromUpdates(updates)
      case _ => [];
    MergedEntries(store.entryInfos, Some(store.daysToEntries), news, ctx.visible, keys);
  }
}
