/** The calendar's entry store: entries by key and, for each day, the keys of its entries
    (lib/reducers/entry-reducer.js). */
module CalendarEntries {
  import opened Collections
  import opened CalendarQuery

  type Entries = map<string, RawEntryInfo>
  type Days = map<int, seq<string>>

  datatype EntryStore = EntryStore(entryInfos: Entries, daysToEntries: Days, lastUserInteractionCalendar: int)

  /** The order in which an object's keys are visited. */
  type Keys = Entries -> seq<string>

  ghost predicate ValidKeys(keys: Keys) {
    forall m: Entries {:trigger Enumerates(keys(m), m.Keys)} :: Enumerates(keys(m), m.Keys)
  }

  /** `entryID`, "" where it throws. */
  function EntryID(e: RawEntryInfo): string {
    if e.id != "" then e.id else e.localID
  }

  /** `entryKey`: what React identifies an entry by. */
  function EntryKey(e: RawEntryInfo): string {
    if e.localID != "" then e.localID else e.id
  }

  // ----- daysToEntriesFromEntryInfos -----

  /** Missing values sort last. */
  predicate FieldLess(a: string, b: string) {
    a != "" && (b == "" || StrLess(a, b))
  }

  predicate Before(a: RawEntryInfo, b: RawEntryInfo) {
    FieldLess(a.id, b.id) || (a.id == b.id && FieldLess(a.localID, b.localID))
  }

  function InsertByID(e: RawEntryInfo, s: seq<RawEntryInfo>): (r: seq<RawEntryInfo>)
    ensures multiset(r) == multiset([e] + s)
  {
    if s == [] then [e]
    else if Before(s[0], e) then
      assert s == [s[0]] + s[1..];
      [s[0]] + InsertByID(e, s[1..])
    else [e] + s
  }

  /** `_sortBy(['id', 'localID'])` */
  function SortByID(s: seq<RawEntryInfo>): (r: seq<RawEntryInfo>)
    ensures multiset(r) == multiset(s)
  {
    if s == [] then [] else
      assert s == [s[0]] + s[1..];
      InsertByID(s[0], SortByID(s[1..]))
  }

  /** The entryIDs of the entries of one day, in order. */
  function IDsOn(s: seq<RawEntryInfo>, day: int): seq<string> {
    if |s| == 0 then []
    else
      var front, last := IDsOn(s[..|s| - 1], day), s[|s| - 1];
      if last.day == On(day) then front + [EntryID(last)] else front
  }

  function DaysIn(s: seq<RawEntryInfo>): set<int> {
    set e | e in s && e.day.On? :: e.day.number
  }

  function GroupByDay(s: seq<RawEntryInfo>): Days {
    map day | day in DaysIn(s) :: IDsOn(s, day)
  }

  predicate Groupable(e: RawEntryInfo) {
    e.day.On? && EntryID(e) != ""
  }

  /** `daysToEntriesFromEntryInfos`: throws on an entry without a date or without any ID. */
  function DaysToEntries(infos: seq<RawEntryInfo>): Outcome<Days> {
    if forall i :: 0 <= i < |infos| ==> Groupable(infos[i]) then Ok(GroupByDay(SortByID(infos))) else Throw
  }

  function Values(m: Entries, order: seq<string>): seq<RawEntryInfo>
    requires forall k :: k in order ==> k in m
  {
    seq(|order|, i requires 0 <= i < |order| => m[order[i]])
  }

  function DaysOf(m: Entries, keys: Keys): Outcome<Days>
    requires Enumerates(keys(m), m.Keys)
  {
    DaysToEntries(Values(m, keys(m)))
  }

  // ----- the two halves of the store agree -----

  function ListOf(days: Days, day: int): seq<string> {
    if day in days then days[day] else []
  }

  /** Every entry is stored under its own entryID. */
  ghost predicate Keyed(entries: Entries) {
    forall k {:trigger entries[k]} :: k in entries ==> k != "" && EntryID(entries[k]) == k
  }

  ghost predicate IndexedAt(entries: Entries, days: Days, day: int) {
    && NoDup(ListOf(days, day))
    && forall k :: k in ListOf(days, day) <==> k in entries && entries[k].day == On(day)
  }

  /** Each day lists, once each, exactly the keys of its entries. */
  ghost predicate Indexed(entries: Entries, days: Days) {
    forall day :: IndexedAt(entries, days, day)
  }

  ghost predicate Consistent(store: EntryStore) {
    Keyed(store.entryInfos) && Indexed(store.entryInfos, store.daysToEntries)
  }

  lemma {:induction false} IDsOnMembers(s: seq<RawEntryInfo>, day: int, k: string)
    ensures k in IDsOn(s, day) <==> exists e :: e in s && e.day == On(day) && EntryID(e) == k
  {
    if |s| > 0 {
      IDsOnMembers(s[..|s| - 1], day, k);
      assert s == s[..|s| - 1] + [s[|s| - 1]];
    }
  }

  ghost predicate DistinctIDs(s: seq<RawEntryInfo>) {
    forall i, j :: 0 <= i < j < |s| ==> EntryID(s[i]) != EntryID(s[j])
  }

  lemma {:induction false} IDsOnNoDup(s: seq<RawEntryInfo>, day: int)
    requires DistinctIDs(s)
    ensures NoDup(IDsOn(s, day))
  {
    if |s| > 0 {
      var front, last := s[..|s| - 1], s[|s| - 1];
      IDsOnNoDup(front, day);
      IDsOnMembers(front, day, EntryID(last));
      assert forall e :: e in front ==> EntryID(e) != EntryID(last);
    }
  }

  lemma SortedDistinct(entries: Entries, order: seq<string>)
    requires Keyed(entries) && Enumerates(order, entries.Keys)
    ensures DistinctIDs(SortByID(Values(entries, order)))
    ensures forall e :: e in SortByID(Values(entries, order)) <==> e in Values(entries, order)
  {
    var infos := Values(entries, order);
    var sorted := SortByID(infos);
    assert NoDup(infos) by {
      forall i, j | 0 <= i < j < |infos|
        ensures infos[i] != infos[j]
      {
        assert EntryID(entries[order[i]]) == order[i] && EntryID(entries[order[j]]) == order[j];
      }
    }
    PermutationNoDup(infos, sorted);
    forall i, j | 0 <= i < j < |sorted|
      ensures EntryID(sorted[i]) != EntryID(sorted[j])
    {
      assert sorted[i] in infos && sorted[j] in infos;
      ValueByID(entries, order, sorted[i]);
      ValueByID(entries, order, sorted[j]);
    }
  }

  lemma ValueByID(entries: Entries, order: seq<string>, e: RawEntryInfo)
    requires Keyed(entries) && Enumerates(order, entries.Keys) && e in Values(entries, order)
    ensures EntryID(e) in entries && entries[EntryID(e)] == e
  {
    var i :| 0 <= i < |order| && entries[order[i]] == e;
    assert order[i] in entries;
  }

  /** Grouping the entries of a keyed map gives an index that agrees with the map, whatever the order
      in which the map is visited. */
  lemma GroupedIndexed(entries: Entries, order: seq<string>)
    requires Keyed(entries) && Enumerates(order, entries.Keys)
    requires DaysToEntries(Values(entries, order)).Ok?
    ensures Indexed(entries, DaysToEntries(Values(entries, order)).value)
  {
    var infos := Values(entries, order);
    var sorted := SortByID(infos);
    SortedDistinct(entries, order);
    forall day
      ensures IndexedAt(entries, GroupByDay(sorted), day)
    {
      IDsOnNoDup(sorted, day);
      forall k
        ensures k in ListOf(GroupByDay(sorted), day) <==> k in entries && entries[k].day == On(day)
      {
        GroupedMember(entries, order, sorted, day, k);
      }
    }
  }

  lemma GroupedMember(entries: Entries, order: seq<string>, sorted: seq<RawEntryInfo>, day: int, k: string)
    requires Keyed(entries) && Enumerates(order, entries.Keys)
    requires forall e :: e in sorted <==> e in Values(entries, order)
    ensures k in ListOf(GroupByDay(sorted), day) <==> k in entries && entries[k].day == On(day)
  {
    IDsOnMembers(sorted, day, k);
    if k in ListOf(GroupByDay(sorted), day) {
      var e :| e in sorted && e.day == On(day) && EntryID(e) == k;
      ValueByID(entries, order, e);
    }
    if k in entries && entries[k].day == On(day) {
      assert k in order;
      var i :| 0 <= i < |order| && order[i] == k;
      assert Values(entries, order)[i] == entries[k];
      assert entries[k] in sorted && day in DaysIn(sorted);
    }
  }

  // ----- mergeNewEntryInfos -----

  /** A server entry as it is stored: with the localID of the copy it replaces. */
  function Preserved(current: Entries, e: RawEntryInfo): RawEntryInfo {
    e.(localID := if e.id in current then current[e.id].localID else "")
  }

  function MergedNew(current: Entries, news: seq<RawEntryInfo>): Entries {
    if |news| == 0 then map[]
    else
      var e := news[|news| - 1];
      MergedNew(current, news[..|news| - 1])[e.id := Preserved(current, e)]
  }

  predicate Differs(current: Entries, e: RawEntryInfo) {
    e.id !in current || current[e.id] != Preserved(current, e)
  }

  function MergedAll(current: Entries, news: seq<RawEntryInfo>): Entries {
    current + MergedNew(current, news)
  }

  function VisibleEntries(m: Entries, visible: set<string>): Entries {
    map k | k in m && m[k].threadID in visible :: m[k]
  }

  predicate SomeUpdated(current: Entries, news: seq<RawEntryInfo>, visible: set<string>) {
    || (exists i :: 0 <= i < |news| && Differs(current, news[i]))
    || (exists k :: k in MergedAll(current, news) && MergedAll(current, news)[k].threadID !in visible)
  }

  function Merged(current: Entries, days: Option<Days>, news: seq<RawEntryInfo>, visible: set<string>, keys: Keys): Outcome<(Entries, Days)>
    requires ValidKeys(keys)
  {
    if exists i :: 0 <= i < |news| && news[i].id == "" then Throw
    else
      var merged := VisibleEntries(MergedAll(current, news), visible);
      var updated := SomeUpdated(current, news, visible);
      assert Enumerates(keys(merged), merged.Keys);
      var newDays :- if days.None? || updated then DaysOf(merged, keys) else Ok(days.value);
      Ok((if updated then merged else current, newDays))
  }

  /** The first loop of `mergeNewEntryInfos`. */
  method MergeServerEntries(current: Entries, news: seq<RawEntryInfo>) returns (r: Outcome<(Entries, bool)>)
    ensures r == if exists i :: 0 <= i < |news| && news[i].id == "" then Throw
                 else Ok((MergedNew(current, news), exists i :: 0 <= i < |news| && Differs(current, news[i])))
  {
    var merged, someEntryUpdated := map[], false;
    for i := 0 to |news|
      invariant forall j :: 0 <= j < i ==> news[j].id != ""
      invariant merged == MergedNew(current, news[..i])
      invariant someEntryUpdated <==> exists j :: 0 <= j < i && Differs(current, news[j])
    {
      assert news[..i + 1][..i] == news[..i];
      var serverID := news[i].id;
      if serverID == "" {
        return Throw;
      }
      var newEntryInfo := news[i].(localID := "");
      if serverID in current && current[serverID].localID != "" {
        newEntryInfo := news[i].(localID := current[serverID].localID);
      }
      if serverID in current && current[serverID] == newEntryInfo {
        merged := merged[serverID := current[serverID]];
      } else {
        merged := merged[serverID := newEntryInfo];
        someEntryUpdated := true;
      }
    }
    assert news[..|news|] == news;
    return Ok((merged, someEntryUpdated));
  }

  /** The second loop: current entries that were not replaced. */
  method KeepCurrentEntries(current: Entries, order: seq<string>, merged: Entries) returns (r: Entries)
    requires Enumerates(order, current.Keys)
    ensures r == current + merged
  {
    r := merged;
    for i := 0 to |order|
      invariant forall k :: k in r <==> k in merged || k in order[..i]
      invariant forall k :: k in r ==> r[k] == if k in merged then merged[k] else current[k]
    {
      if order[i] !in r {
        r := r[order[i] := current[order[i]]];
      }
    }
    assert order[..|order|] == order;
  }

  /** The third loop: entries of threads that are not in the filter list are deleted. */
  method DropHiddenEntries(merged: Entries, order: seq<string>, visible: set<string>) returns (r: Entries, dropped: bool)
    requires Enumerates(order, merged.Keys)
    ensures r == VisibleEntries(merged, visible)
    ensures dropped <==> exists k :: k in merged && merged[k].threadID !in visible
  {
    r, dropped := merged, false;
    for i := 0 to |order|
      invariant forall k :: k in r <==> k in merged && !(k in order[..i] && merged[k].threadID !in visible)
      invariant forall k :: k in r ==> r[k] == merged[k]
      invariant dropped <==> exists k :: k in order[..i] && merged[k].threadID !in visible
    {
      var id := order[i];
      if merged[id].threadID !in visible {
        dropped := true;
        r := r - {id};
      }
    }
    assert order[..|order|] == order;
  }

  /** `mergeNewEntryInfos` */
  method MergeNewEntryInfos(current: Entries, days: Option<Days>, news: seq<RawEntryInfo>, visible: set<string>, keys: Keys)
    returns (r: Outcome<(Entries, Days)>)
    requires ValidKeys(keys)
    ensures r == Merged(current, days, news, visible, keys)
  {
    var first := MergeServerEntries(current, news);
    if first.Throw? {
      return Throw;
    }
    assert Enumerates(keys(current), current.Keys);
    var all := KeepCurrentEntries(current, keys(current), first.value.0);
    assert all == MergedAll(current, news);
    assert Enumerates(keys(all), all.Keys);
    var merged, dropped := DropHiddenEntries(all, keys(all), visible);
    var someEntryUpdated := first.value.1 || dropped;
    assert someEntryUpdated <==> SomeUpdated(current, news, visible);
    assert Enumerates(keys(merged), merged.Keys);
    var newDays := if days.None? || someEntryUpdated then DaysOf(merged, keys) else Ok(days.value);
    if newDays.Throw? {
      return Throw;
    }
    return Ok((if someEntryUpdated then merged else current, newDays.value));
  }

  lemma {:induction false} MergedNewKeys(current: Entries, news: seq<RawEntryInfo>, k: string)
    ensures k in MergedNew(current, news) <==> exists i :: 0 <= i < |news| && news[i].id == k
    ensures k in MergedNew(current, news) ==> MergedNew(current, news)[k].id == k
    ensures k in MergedNew(current, news) && k in current ==> MergedNew(current, news)[k].localID == current[k].localID
    ensures k in MergedNew(current, news) && k !in current ==> MergedNew(current, news)[k].localID == ""
  {
    if |news| > 0 {
      MergedNewKeys(current, news[..|news| - 1], k);
      assert news[|news| - 1].id == k || forall i :: 0 <= i < |news| && news[i].id == k ==> i < |news| - 1;
    }
  }

  /** The last delivered copy of an entry is the one stored. */
  lemma {:induction false} LastDelivered(current: Entries, news: seq<RawEntryInfo>, i: nat)
    requires i < |news| && forall j :: i < j < |news| ==> news[j].id != news[i].id
    ensures news[i].id in MergedNew(current, news) && MergedNew(current, news)[news[i].id] == Preserved(current, news[i])
  {
    if i < |news| - 1 {
      assert news[|news| - 1].id != news[i].id;
      LastDelivered(current, news[..|news| - 1], i);
    }
  }

  lemma {:induction false} UnchangedCopies(current: Entries, news: seq<RawEntryInfo>)
    requires forall i :: 0 <= i < |news| ==> !Differs(current, news[i])
    ensures MergedAll(current, news) == current
  {
    if |news| > 0 {
      UnchangedCopies(current, news[..|news| - 1]);
      assert !Differs(current, news[|news| - 1]);
    }
  }

  /** With or without the shortcut, the merged entries are the current ones overwritten by the delivered
      ones, as far as their threads are visible. */
  lemma MergedEntries(current: Entries, days: Option<Days>, news: seq<RawEntryInfo>, visible: set<string>, keys: Keys)
    requires ValidKeys(keys) && Merged(current, days, news, visible, keys).Ok?
    ensures Merged(current, days, news, visible, keys).value.0 == VisibleEntries(MergedAll(current, news), visible)
  {
    if !SomeUpdated(current, news, visible) {
      UnchangedCopies(current, news);
    }
  }

  /** Merging delivered entries keeps the store keyed. */
  lemma MergedKeyed(current: Entries, news: seq<RawEntryInfo>, visible: set<string>)
    requires Keyed(current) && forall i :: 0 <= i < |news| ==> news[i].id != ""
    ensures Keyed(VisibleEntries(MergedAll(current, news), visible))
  {
    var r := VisibleEntries(MergedAll(current, news), visible);
    forall k | k in r
      ensures k != "" && EntryID(r[k]) == k
    {
      MergedNewKeys(current, news, k);
    }
  }

  /** The index is right after every merge, also when it is not recomputed. */
  lemma MergeIndexed(current: Entries, days: Option<Days>, news: seq<RawEntryInfo>, visible: set<string>, keys: Keys)
    requires ValidKeys(keys) && Merged(current, days, news, visible, keys).Ok?
    requires Keyed(VisibleEntries(MergedAll(current, news), visible))
    requires days.Some? ==> Indexed(current, days.value)
    ensures var r := Merged(current, days, news, visible, keys).value; Keyed(r.0) && Indexed(r.0, r.1)
  {
    MergedEntries(current, days, news, visible, keys);
    var merged := VisibleEntries(MergedAll(current, news), visible);
    assert Enumerates(keys(merged), merged.Keys);
    if days.None? || SomeUpdated(current, news, visible) {
      GroupedIndexed(merged, keys(merged));
    }
  }

  /** An entry that survives a merge keeps its React key. */
  lemma MergeKeepsEntryKeys(current: Entries, days: Option<Days>, news: seq<RawEntryInfo>, visible: set<string>, keys: Keys, k: string)
    requires ValidKeys(keys) && Keyed(current) && Merged(current, days, news, visible, keys).Ok?
    requires k in current && k in Merged(current, days, news, visible, keys).value.0
    ensures EntryKey(Merged(current, days, news, visible, keys).value.0[k]) == EntryKey(current[k])
  {
    MergedEntries(current, days, news, visible, keys);
    MergedNewKeys(current, news, k);
  }

  // ----- mergeUpdateEntryInfos -----

  datatype Update = JoinThread(rawEntryInfos: seq<RawEntryInfo>) | UpdateEntry(entryInfo: RawEntryInfo) | OtherUpdate

  function CarriedBy(u: Update): seq<RawEntryInfo> {
    match u
    case JoinThread(infos) => infos
    case UpdateEntry(info) => [info]
    case OtherUpdate => []
  }

  function Carried(updates: seq<Update>): seq<RawEntryInfo> {
    if |updates| == 0 then [] else Carried(updates[..|updates| - 1]) + CarriedBy(updates[|updates| - 1])
  }

  predicate HasID(infos: seq<RawEntryInfo>, id: string) {
    exists i :: 0 <= i < |infos| && infos[i].id == id
  }

  function AddEach(infos: seq<RawEntryInfo>, more: seq<RawEntryInfo>): seq<RawEntryInfo> {
    if |more| == 0 then infos
    else
      var front, last := AddEach(infos, more[..|more| - 1]), more[|more| - 1];
      if HasID(front, last.id) then front else front + [last]
  }

  method AddUnlessPresent(infos: seq<RawEntryInfo>, ids: set<string>, e: RawEntryInfo) returns (r: seq<RawEntryInfo>, newIDs: set<string>)
    requires forall id :: id in ids <==> HasID(infos, id)
    ensures r == if HasID(infos, e.id) then infos else infos + [e]
    ensures forall id :: id in newIDs <==> HasID(r, id)
  {
    if e.id in ids {
      return infos, ids;
    }
    r, newIDs := infos + [e], ids + {e.id};
    forall id
      ensures id in newIDs <==> HasID(r, id)
    {
      HasIDAppend(infos, e, id);
    }
  }

  lemma HasIDAppend(infos: seq<RawEntryInfo>, e: RawEntryInfo, id: string)
    ensures HasID(infos + [e], id) <==> HasID(infos, id) || e.id == id
  {
    var r := infos + [e];
    if HasID(infos, id) {
      var i :| 0 <= i < |infos| && infos[i].id == id;
      assert r[i].id == id;
    }
    if e.id == id {
      assert r[|infos|].id == id;
    }
  }

  lemma {:induction false} AddEachConcat(infos: seq<RawEntryInfo>, a: seq<RawEntryInfo>, b: seq<RawEntryInfo>)
    ensures AddEach(infos, a + b) == AddEach(AddEach(infos, a), b)
  {
    if |b| == 0 {
      assert a + b == a;
    } else {
      AddEachConcat(infos, a, b[..|b| - 1]);
      assert (a + b)[..|a + b| - 1] == a + b[..|b| - 1];
    }
  }

  /** `mergeUpdateEntryInfos` */
  method MergeUpdateEntryInfos(infos: seq<RawEntryInfo>, updates: seq<Update>) returns (merged: seq<RawEntryInfo>)
    ensures merged == AddEach(infos, Carried(updates))
  {
    var ids := set e | e in infos :: e.id;
    assert forall id :: id in ids <==> HasID(infos, id);
    merged := infos;
    for i := 0 to |updates|
      invariant merged == AddEach(infos, Carried(updates[..i]))
      invariant forall id :: id in ids <==> HasID(merged, id)
    {
      assert updates[..i + 1][..i] == updates[..i];
      AddEachConcat(infos, Carried(updates[..i]), CarriedBy(updates[i]));
      ghost var before := merged;
      var carried := CarriedBy(updates[i]);
      for j := 0 to |carried|
        invariant merged == AddEach(before, carried[..j])
        invariant forall id :: id in ids <==> HasID(merged, id)
      {
        assert carried[..j + 1][..j] == carried[..j];
        merged, ids := AddUnlessPresent(merged, ids, carried[j]);
      }
      assert carried[..|carried|] == carried;
    }
    assert updates[..|updates|] == updates;
  }

  /** Every ID delivered directly or by an update is there, and nothing else. */
  lemma {:induction false} AddEachIDs(infos: seq<RawEntryInfo>, more: seq<RawEntryInfo>, id: string)
    ensures HasID(AddEach(infos, more), id) <==> HasID(infos, id) || HasID(more, id)
  {
    if |more| > 0 {
      var front, last := more[..|more| - 1], more[|more| - 1];
      AddEachIDs(infos, front, id);
      AddEachIDs(infos, front, last.id);
      assert more == front + [last];
      HasIDAppend(front, last, id);
      HasIDAppend(AddEach(infos, front), last, id);
    }
  }

  // ----- markDeletedEntries -----

  function Marked(entries: Entries, deletedIDs: seq<string>): Entries {
    map k | k in entries :: if k in deletedIDs then entries[k].(deleted := true) else entries[k]
  }

  /** `markDeletedEntries` */
  method MarkDeletedEntries(entries: Entries, deletedIDs: seq<string>) returns (r: Entries)
    ensures r == Marked(entries, deletedIDs)
  {
    r := entries;
    for i := 0 to |deletedIDs|
      invariant r == Marked(entries, deletedIDs[..i])
    {
      var id := deletedIDs[i];
      assert deletedIDs[..i + 1] == deletedIDs[..i] + [id];
      if id in entries && !entries[id].deleted {
        r := r[id := entries[id].(deleted := true)];
      }
    }
    assert deletedIDs[..|deletedIDs|] == deletedIDs;
  }

  lemma MarkedConsistent(entries: Entries, days: Days, deletedIDs: seq<string>)
    requires Keyed(entries) && Indexed(entries, days)
    ensures Keyed(Marked(entries, deletedIDs)) && Indexed(Marked(entries, deletedIDs), days)
  {
    var r := Marked(entries, deletedIDs);
    forall day
      ensures IndexedAt(r, days, day)
    {
      assert IndexedAt(entries, days, day);
    }
  }

  // ----- filterExistingDaysToEntriesWithNewEntryInfos -----

  function KeepExisting(ids: seq<string>, entries: Entries): (r: seq<string>)
    ensures forall k :: k in r <==> k in ids && k in entries
  {
    if |ids| == 0 then []
    else
      var front, last := KeepExisting(ids[..|ids| - 1], entries), ids[|ids| - 1];
      if last in entries then front + [last] else front
  }

  lemma {:induction false} KeepExistingNoDup(ids: seq<string>, entries: Entries)
    requires NoDup(ids)
    ensures NoDup(KeepExisting(ids, entries))
  {
    if |ids| > 0 {
      KeepExistingNoDup(ids[..|ids| - 1], entries);
    }
  }

  function FilterDays(days: Days, entries: Entries): Days {
    map day | day in days :: KeepExisting(days[day], entries)
  }

  /** Narrowing the entries and the days with them keeps the two in agreement. */
  lemma FilteredIndexed(entries: Entries, days: Days, kept: Entries)
    requires Indexed(entries, days) && forall k :: k in kept ==> k in entries && kept[k] == entries[k]
    ensures Indexed(kept, FilterDays(days, kept))
  {
    forall day
      ensures IndexedAt(kept, FilterDays(days, kept), day)
    {
      assert IndexedAt(entries, days, day);
      if day in days {
        KeepExistingNoDup(days[day], kept);
      }
    }
  }

  // ----- the index does not depend on the order in which the entries are visited -----

  ghost predicate Ascending(s: seq<RawEntryInfo>) {
    forall i, j :: 0 <= i < j < |s| ==> !Before(s[j], s[i])
  }

  lemma FieldLessTotal(a: string, b: string)
    ensures FieldLess(a, b) || a == b || FieldLess(b, a)
    ensures !(FieldLess(a, b) && FieldLess(b, a))
    ensures !FieldLess(a, a)
  {
    StrLessTotal(a, b);
    StrLessIrreflexive(a);
    if StrLess(a, b) && StrLess(b, a) {
      StrLessTransitive(a, b, a);
    }
  }

  lemma FieldLessTransitive(a: string, b: string, c: string)
    requires FieldLess(a, b) && FieldLess(b, c)
    ensures FieldLess(a, c)
  {
    if b != "" && c != "" {
      StrLessTransitive(a, b, c);
    }
  }

  lemma BeforeTransitive(a: RawEntryInfo, b: RawEntryInfo, c: RawEntryInfo)
    requires Before(a, b) && Before(b, c)
    ensures Before(a, c)
  {
    if FieldLess(a.id, b.id) && FieldLess(b.id, c.id) {
      FieldLessTransitive(a.id, b.id, c.id);
    }
    if FieldLess(a.localID, b.localID) && FieldLess(b.localID, c.localID) {
      FieldLessTransitive(a.localID, b.localID, c.localID);
    }
  }

  lemma BeforeTotal(a: RawEntryInfo, b: RawEntryInfo)
    ensures Before(a, b) || Before(b, a) || (a.id == b.id && a.localID == b.localID)
    ensures !(Before(a, b) && Before(b, a))
  {
    FieldLessTotal(a.id, b.id);
    FieldLessTotal(a.localID, b.localID);
  }

  /** Not after is transitive too. */
  lemma NotAfterTransitive(a: RawEntryInfo, b: RawEntryInfo, c: RawEntryInfo)
    requires !Before(b, a) && !Before(c, b)
    ensures !Before(c, a)
  {
    BeforeTotal(a, b);
    BeforeTotal(b, c);
    BeforeTotal(a, c);
    if Before(a, b) && Before(b, c) {
      BeforeTransitive(a, b, c);
    }
  }

  lemma {:induction false} InsertAscending(e: RawEntryInfo, s: seq<RawEntryInfo>)
    requires Ascending(s)
    ensures Ascending(InsertByID(e, s))
  {
    if s == [] {
    } else if Before(s[0], e) {
      InsertAscending(e, s[1..]);
      var rest := InsertByID(e, s[1..]);
      forall j | 0 <= j < |rest|
        ensures !Before(rest[j], s[0])
      {
        assert rest[j] in multiset([e] + s[1..]);
        if rest[j] == e {
          BeforeTotal(e, s[0]);
        } else {
          assert rest[j] in s[1..];
        }
      }
    } else {
      forall j | 0 <= j < |s|
        ensures !Before(s[j], e)
      {
        if j > 0 {
          NotAfterTransitive(e, s[0], s[j]);
        }
      }
    }
  }

  lemma {:induction false} SortAscending(s: seq<RawEntryInfo>)
    ensures Ascending(SortByID(s))
  {
    if s != [] {
      SortAscending(s[1..]);
      InsertAscending(s[0], SortByID(s[1..]));
    }
  }

  /** A set of entries with distinct IDs has one ascending order. */
  lemma {:induction false} OneAscendingOrder(a: seq<RawEntryInfo>, b: seq<RawEntryInfo>)
    requires Ascending(a) && Ascending(b) && DistinctIDs(a) && DistinctIDs(b)
    requires forall e :: e in a <==> e in b
    ensures a == b
    decreases |a|
  {
    EmptyTogether(a, b);
    if |a| > 0 {
      HeadsEqual(a, b);
      forall e
        ensures e in a[1..] <==> e in b[1..]
      {
        TailMember(a, e);
        TailMember(b, e);
      }
      OneAscendingOrder(a[1..], b[1..]);
      assert a == [a[0]] + a[1..] && b == [b[0]] + b[1..];
    }
  }

  lemma EmptyTogether(a: seq<RawEntryInfo>, b: seq<RawEntryInfo>)
    requires forall e :: e in a <==> e in b
    ensures |a| == 0 <==> |b| == 0
  {
    if |a| > 0 {
      assert a[0] in a;
    }
    if |b| > 0 {
      assert b[0] in b;
    }
  }

  lemma HeadsEqual(a: seq<RawEntryInfo>, b: seq<RawEntryInfo>)
    requires |a| > 0 && |b| > 0 && Ascending(a) && Ascending(b) && DistinctIDs(a)
    requires forall e :: e in a <==> e in b
    ensures a[0] == b[0]
  {
    assert a[0] in b && b[0] in a;
    var i :| 0 <= i < |b| && b[i] == a[0];
    var j :| 0 <= j < |a| && a[j] == b[0];
    BeforeTotal(a[0], b[0]);
  }

  lemma TailMember(s: seq<RawEntryInfo>, e: RawEntryInfo)
    requires |s| > 0 && DistinctIDs(s)
    ensures e in s[1..] <==> e in s && e != s[0]
  {
    if e in s && e != s[0] {
      var i :| 0 <= i < |s| && s[i] == e;
      assert s[1..][i - 1] == e;
    }
  }

  /** The order of an object's keys does not show in the index: any two orders give the same lists. */
  lemma IndexIgnoresKeyOrder(entries: Entries, order: seq<string>, other: seq<string>)
    requires Keyed(entries) && Enumerates(order, entries.Keys) && Enumerates(other, entries.Keys)
    ensures DaysToEntries(Values(entries, order)) == DaysToEntries(Values(entries, other))
  {
    var a, b := Values(entries, order), Values(entries, other);
    ValuesSame(entries, order, other);
    ValuesSame(entries, other, order);
    GroupableSame(a, b);
    SortedSame(entries, order, other);
  }

  lemma SortedSame(entries: Entries, order: seq<string>, other: seq<string>)
    requires Keyed(entries) && Enumerates(order, entries.Keys) && Enumerates(other, entries.Keys)
    requires forall e :: e in Values(entries, order) <==> e in Values(entries, other)
    ensures SortByID(Values(entries, order)) == SortByID(Values(entries, other))
  {
    SortedDistinct(entries, order);
    SortedDistinct(entries, other);
    SortAscending(Values(entries, order));
    SortAscending(Values(entries, other));
    OneAscendingOrder(SortByID(Values(entries, order)), SortByID(Values(entries, other)));
  }

  lemma GroupableSame(a: seq<RawEntryInfo>, b: seq<RawEntryInfo>)
    requires forall e :: e in a <==> e in b
    ensures DaysToEntries(a).Ok? <==> DaysToEntries(b).Ok?
  {
    assert forall i :: 0 <= i < |a| ==> a[i] in b;
    assert forall i :: 0 <= i < |b| ==> b[i] in a;
  }

  lemma ValuesSame(entries: Entries, order: seq<string>, other: seq<string>)
    requires Enumerates(order, entries.Keys) && Enumerates(other, entries.Keys)
    ensures forall e :: e in Values(entries, order) ==> e in Values(entries, other)
  {
    forall e | e in Values(entries, order)
      ensures e in Values(entries, other)
    {
      var i :| 0 <= i < |order| && entries[order[i]] == e;
      assert order[i] in other;
      var j :| 0 <= j < |other| && other[j] == order[i];
      assert Values(entries, other)[j] == e;
    }
  }
}
