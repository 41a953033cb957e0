/** Calendar queries: which entries a query asks for, and the queries still to be made when the calendar
    moves from one query to another (lib/shared/entry-utils.js, lib/selectors/calendar-filter-selectors.js).
    Dates are day numbers. */
module CalendarQuery {
  import opened Collections

  /** An entry without date fields has NoDay; no comparison with it holds. */
  datatype Day = NoDay | On(number: int)

  /** `id` and `localID` are "" when JavaScript has no value there. */
  datatype RawEntryInfo = RawEntryInfo(
    id: string, localID: string, threadID: string, text: string, day: Day,
    creationTime: int, creatorID: string, deleted: bool)

  datatype FilterKind = NOT_DELETED | THREAD_LIST
  datatype Filter = NotDeleted | ThreadList(threadIDs: seq<string>)
  datatype Query = Query(start: int, end: int, filters: seq<Filter>)

  /** `filteredThreadIDs`: null, or a Set in insertion order. */
  datatype Threads = AllThreads | Only(ids: seq<string>)

  function Kind(f: Filter): FilterKind {
    if f.NotDeleted? then NOT_DELETED else THREAD_LIST
  }

  // ----- filters -----

  predicate HasKind(filters: seq<Filter>, kind: FilterKind) {
    exists i :: 0 <= i < |filters| && Kind(filters[i]) == kind
  }

  function Listed(filters: seq<Filter>): seq<string> {
    if |filters| == 0 then []
    else
      var front, last := Listed(filters[..|filters| - 1]), filters[|filters| - 1];
      if last.ThreadList? then front + last.threadIDs else front
  }

  function ThreadsOf(filters: seq<Filter>): Threads {
    if HasKind(filters, THREAD_LIST) then Only(Uniq(Listed(filters))) else AllThreads
  }

  function Without(filters: seq<Filter>, kind: FilterKind): seq<Filter> {
    if |filters| == 0 then []
    else
      var front, last := Without(filters[..|filters| - 1], kind), filters[|filters| - 1];
      if Kind(last) == kind then front else front + [last]
  }

  /** `filterExists` */
  method FilterExists(filters: seq<Filter>, kind: FilterKind) returns (found: bool)
    ensures found == HasKind(filters, kind)
  {
    for i := 0 to |filters|
      invariant !HasKind(filters[..i], kind)
    {
      if Kind(filters[i]) == kind {
        return true;
      }
      PrefixNext(filters, i);
    }
    assert filters[..|filters|] == filters;
    return false;
  }

  /** `filteredThreadIDs` */
  method FilteredThreadIDs(filters: seq<Filter>) returns (threads: Threads)
    ensures threads == ThreadsOf(filters)
  {
    var threadIDs: seq<string>, threadListFilterExists := [], false;
    for i := 0 to |filters|
      invariant threadIDs == Listed(filters[..i])
      invariant threadListFilterExists == HasKind(filters[..i], THREAD_LIST)
    {
      PrefixNext(filters, i);
      if filters[i].ThreadList? {
        threadListFilterExists := true;
        threadIDs := threadIDs + filters[i].threadIDs;
        assert Kind(filters[..i + 1][i]) == THREAD_LIST;
      } else {
        SameKind(filters[..i], filters[i], THREAD_LIST);
      }
    }
    assert filters[..|filters|] == filters;
    threads := if threadListFilterExists then Only(Uniq(threadIDs)) else AllThreads;
  }

  /** `filterFilters` */
  method FilterFilters(filters: seq<Filter>, kind: FilterKind) returns (kept: seq<Filter>)
    ensures kept == Without(filters, kind)
  {
    kept := [];
    for i := 0 to |filters|
      invariant kept == Without(filters[..i], kind)
    {
      assert filters[..i + 1][..i] == filters[..i];
      if Kind(filters[i]) != kind {
        kept := kept + [filters[i]];
      }
    }
    assert filters[..|filters|] == filters;
  }

  lemma SameKind(filters: seq<Filter>, f: Filter, kind: FilterKind)
    ensures HasKind(filters + [f], kind) <==> HasKind(filters, kind) || Kind(f) == kind
  {
    var all := filters + [f];
    if HasKind(filters, kind) {
      var i :| 0 <= i < |filters| && Kind(filters[i]) == kind;
      assert Kind(all[i]) == kind;
    }
    if Kind(f) == kind {
      assert Kind(all[|filters|]) == kind;
    }
  }

  lemma {:induction false} ListedMeans(filters: seq<Filter>, threadID: string)
    ensures threadID in Listed(filters) <==>
      exists i :: 0 <= i < |filters| && filters[i].ThreadList? && threadID in filters[i].threadIDs
  {
    if |filters| > 0 {
      ListedMeans(filters[..|filters| - 1], threadID);
    }
  }

  lemma {:induction false} WithoutKinds(filters: seq<Filter>, kind: FilterKind, other: FilterKind)
    ensures HasKind(Without(filters, kind), other) <==> other != kind && HasKind(filters, other)
  {
    if |filters| > 0 {
      var front, last := filters[..|filters| - 1], filters[|filters| - 1];
      WithoutKinds(front, kind, other);
      assert filters == front + [last];
      SameKind(front, last, other);
      SameKind(Without(front, kind), last, other);
    }
  }

  lemma {:induction false} WithoutLists(filters: seq<Filter>)
    ensures Listed(Without(filters, THREAD_LIST)) == []
  {
    if |filters| > 0 {
      WithoutLists(filters[..|filters| - 1]);
      var front := Without(filters[..|filters| - 1], THREAD_LIST);
      assert (front + [filters[|filters| - 1]])[..|front|] == front;
    }
  }

  // ----- matching -----

  predicate Admits(filters: seq<Filter>, threadID: string) {
    match ThreadsOf(filters)
    case AllThreads => true
    case Only(ids) => threadID in ids
  }

  /** The thread lists of a query add up; without any, every thread is asked for. */
  lemma AdmitsMeans(filters: seq<Filter>, threadID: string)
    ensures Admits(filters, threadID) <==>
      (forall i :: 0 <= i < |filters| ==> filters[i].NotDeleted?)
      || (exists i :: 0 <= i < |filters| && filters[i].ThreadList? && threadID in filters[i].threadIDs)
  {
    ListedMeans(filters, threadID);
    assert HasKind(filters, THREAD_LIST) <==> !forall i :: 0 <= i < |filters| ==> filters[i].NotDeleted?;
  }

  predicate InRange(day: Day, q: Query) {
    day.On? ==> q.start <= day.number <= q.end
  }

  /** `rawEntryInfoWithinActiveRange` */
  predicate WithinActiveRange(e: RawEntryInfo, q: Query) {
    InRange(e.day, q) && !(e.deleted && HasKind(q.filters, NOT_DELETED))
  }

  /** `rawEntryInfoWithinCalendarQuery` */
  predicate Matches(e: RawEntryInfo, q: Query) {
    WithinActiveRange(e, q) && Admits(q.filters, e.threadID)
  }

  ghost predicate MatchesAny(e: RawEntryInfo, queries: seq<Query>) {
    exists i :: 0 <= i < |queries| && Matches(e, queries[i])
  }

  /** `filterRawEntryInfosByCalendarQuery`, the map visited in the given order. */
  method FilterByCalendarQuery(infos: map<string, RawEntryInfo>, order: seq<string>, q: Query) returns (r: map<string, RawEntryInfo>)
    requires Enumerates(order, infos.Keys)
    ensures r == map id | id in infos && Matches(infos[id], q) :: infos[id]
  {
    var filtered, kept := false, map[];
    for i := 0 to |order|
      invariant forall id :: id in kept <==> id in order[..i] && Matches(infos[id], q)
      invariant forall id :: id in kept ==> kept[id] == infos[id]
      invariant filtered <==> exists id :: id in order[..i] && !Matches(infos[id], q)
    {
      if !Matches(infos[order[i]], q) {
        filtered := true;
      } else {
        kept := kept[order[i] := infos[order[i]]];
      }
    }
    assert order[..|order|] == order;
    r := if filtered then kept else infos;
  }

  // ----- the difference of two queries -----

  /** The two cases that ask for the whole new query: it alone excludes deleted entries, or it alone has
      no thread list. */
  predicate AsksForAll(before: Query, after: Query) {
    || (!HasKind(before.filters, NOT_DELETED) && HasKind(after.filters, NOT_DELETED))
    || (ThreadsOf(before.filters).Only? && ThreadsOf(after.filters).AllThreads?)
  }

  function AddedThreads(before: Query, after: Query): seq<string> {
    var olds, news := ThreadsOf(before.filters), ThreadsOf(after.filters);
    if olds.Only? && news.Only? then Difference(news.ids, olds.ids) else []
  }

  predicate Overlap(before: Query, after: Query) {
    before.start <= after.end && before.end >= after.start
  }

  /** The added threads, on the days both queries cover. */
  function AddedPiece(before: Query, after: Query): seq<Query> {
    var added := AddedThreads(before, after);
    if Overlap(before, after) && |added| > 0 then
      [Query(if before.start < after.start then after.start else before.start,
             if before.end > after.end then after.end else before.end,
             Without(after.filters, THREAD_LIST) + [ThreadList(added)])]
    else []
  }

  function EarlierPiece(before: Query, after: Query): seq<Query> {
    if after.start < before.start then [Query(after.start, before.start - 1, after.filters)] else []
  }

  function LaterPiece(before: Query, after: Query): seq<Query> {
    if after.end > before.end then [Query(before.end + 1, after.end, after.filters)] else []
  }

  function Pieces(before: Query, after: Query): seq<Query> {
    if before == after then []
    else if AsksForAll(before, after) then [after]
    else AddedPiece(before, after) + EarlierPiece(before, after) + LaterPiece(before, after)
  }

  /** The threads new in the list, on the intersection of the two ranges. */
  method QueryAddedThreads(before: Query, after: Query, oldThreads: Threads, newThreads: Threads) returns (difference: seq<Query>)
    requires oldThreads == ThreadsOf(before.filters) && newThreads == ThreadsOf(after.filters)
    ensures difference == AddedPiece(before, after)
  {
    difference := [];
    if oldThreads.Only? && newThreads.Only? && before.start <= after.end && before.end >= after.start {
      var newNotInOld := Difference(newThreads.ids, oldThreads.ids);
      if |newNotInOld| > 0 {
        var others := FilterFilters(after.filters, THREAD_LIST);
        var start := if before.start < after.start then after.start else before.start;
        var end := if before.end > after.end then after.end else before.end;
        difference := difference + [Query(start, end, others + [ThreadList(newNotInOld)])];
      }
    }
  }

  /** The rest of the new range, before and after the old one. */
  method QueryNewDays(before: Query, after: Query, added: seq<Query>) returns (difference: seq<Query>)
    ensures difference == added + EarlierPiece(before, after) + LaterPiece(before, after)
  {
    difference := added;
    if after.start < before.start {
      difference := difference + [Query(after.start, before.start - 1, after.filters)];
    }
    assert difference == added + EarlierPiece(before, after);
    if after.end > before.end {
      difference := difference + [Query(before.end + 1, after.end, after.filters)];
    }
  }

  lemma WholeQuery(before: Query, after: Query)
    requires before != after && AsksForAll(before, after)
    ensures Pieces(before, after) == [after]
  {
  }

  lemma PartialQueries(before: Query, after: Query)
    requires before != after && !AsksForAll(before, after)
    ensures Pieces(before, after) == AddedPiece(before, after) + EarlierPiece(before, after) + LaterPiece(before, after)
  {
  }

  /** `calendarQueryDifference` */
  method CalendarQueryDifference(before: Query, after: Query) returns (difference: seq<Query>)
    ensures difference == Pieces(before, after)
  {
    if before == after {
      return [];
    }
    var deletedWereExcluded := FilterExists(before.filters, NOT_DELETED);
    var deletedAreExcluded := FilterExists(after.filters, NOT_DELETED);
    if !deletedWereExcluded && deletedAreExcluded {
      WholeQuery(before, after);
      return [after];
    }
    var oldThreads := FilteredThreadIDs(before.filters);
    var newThreads := FilteredThreadIDs(after.filters);
    if oldThreads.Only? && newThreads.AllThreads? {
      WholeQuery(before, after);
      return [after];
    }
    PartialQueries(before, after);
    var added := QueryAddedThreads(before, after, oldThreads, newThreads);
    difference := QueryNewDays(before, after, added);
  }

  /** The filters of the piece for added threads admit exactly those threads and treat deleted entries
      as the new query does. */
  lemma AddedFilters(filters: seq<Filter>, added: seq<string>, threadID: string)
    ensures var fs := Without(filters, THREAD_LIST) + [ThreadList(added)];
      && (Admits(fs, threadID) <==> threadID in added)
      && (HasKind(fs, NOT_DELETED) <==> HasKind(filters, NOT_DELETED))
  {
    var rest := Without(filters, THREAD_LIST);
    SameKind(rest, ThreadList(added), THREAD_LIST);
    SameKind(rest, ThreadList(added), NOT_DELETED);
    WithoutKinds(filters, THREAD_LIST, NOT_DELETED);
    WithoutLists(filters);
    assert (rest + [ThreadList(added)])[..|rest|] == rest;
    assert Listed(rest + [ThreadList(added)]) == [] + added;
  }

  // ----- coverage -----

  /** The deleted entries of days and threads that both queries ask for, when only the old one excludes
      deleted entries: the old query did not ask for them and no piece does. */
  predicate Missed(before: Query, after: Query, e: RawEntryInfo) {
    && HasKind(before.filters, NOT_DELETED) && !HasKind(after.filters, NOT_DELETED)
    && !AsksForAll(before, after)
    && e.deleted && InRange(e.day, before) && Admits(before.filters, e.threadID)
  }

  /** Membership in the pieces, outside the two whole-query cases. */
  lemma PiecesMatch(before: Query, after: Query, e: RawEntryInfo)
    requires before != after && !AsksForAll(before, after) && e.day.On?
    ensures MatchesAny(e, Pieces(before, after)) <==>
      !(e.deleted && HasKind(after.filters, NOT_DELETED)) &&
      ((InRange(e.day, before) && InRange(e.day, after) && e.threadID in AddedThreads(before, after))
       || (Admits(after.filters, e.threadID) &&
           (after.start <= e.day.number < before.start || before.end < e.day.number <= after.end)))
  {
    var added, earlier, later := AddedPiece(before, after), EarlierPiece(before, after), LaterPiece(before, after);
    AddedFilters(after.filters, AddedThreads(before, after), e.threadID);
    MatchesConcat(e, added + earlier, later);
    MatchesConcat(e, added, earlier);
    MatchesOne(e, added);
    MatchesOne(e, earlier);
    MatchesOne(e, later);
  }

  lemma MatchesConcat(e: RawEntryInfo, a: seq<Query>, b: seq<Query>)
    ensures MatchesAny(e, a + b) <==> MatchesAny(e, a) || MatchesAny(e, b)
  {
    if MatchesAny(e, a) {
      var i :| 0 <= i < |a| && Matches(e, a[i]);
      assert Matches(e, (a + b)[i]);
    }
    if MatchesAny(e, b) {
      var i :| 0 <= i < |b| && Matches(e, b[i]);
      assert Matches(e, (a + b)[|a| + i]);
    }
  }

  lemma MatchesOne(e: RawEntryInfo, queries: seq<Query>)
    requires |queries| <= 1
    ensures MatchesAny(e, queries) <==> |queries| == 1 && Matches(e, queries[0])
  {
  }

  /** An entry the new query asks for was asked for before or is asked for by a piece, unless it is missed. */
  lemma Coverage(before: Query, after: Query, e: RawEntryInfo)
    requires Matches(e, after) && e.day.On?
    ensures Matches(e, before) || MatchesAny(e, Pieces(before, after)) <==> !Missed(before, after, e)
  {
    if before != after {
      if AsksForAll(before, after) {
        assert Pieces(before, after)[0] == after;
      } else {
        PiecesMatch(before, after, e);
      }
    }
  }

  ghost predicate CoversAll(before: Query, after: Query) {
    forall e: RawEntryInfo :: e.day.On? && Matches(e, after) ==> Matches(e, before) || MatchesAny(e, Pieces(before, after))
  }

  ghost predicate ShareThread(before: Query, after: Query) {
    exists t :: Admits(before.filters, t) && Admits(after.filters, t)
  }

  ghost predicate ShareDay(before: Query, after: Query) {
    before.start <= before.end && after.start <= after.end && Overlap(before, after)
  }

  /** The pieces cover everything the new query asks for exactly when it is not the case that the old
      query alone excludes deleted entries while the two have a day and a thread in common. */
  lemma CoverageIff(before: Query, after: Query)
    ensures CoversAll(before, after) <==>
      !(HasKind(before.filters, NOT_DELETED) && !HasKind(after.filters, NOT_DELETED) && !AsksForAll(before, after)
        && ShareDay(before, after) && ShareThread(before, after))
  {
    var dropped := HasKind(before.filters, NOT_DELETED) && !HasKind(after.filters, NOT_DELETED) && !AsksForAll(before, after);
    if dropped && ShareDay(before, after) && ShareThread(before, after) {
      var t :| Admits(before.filters, t) && Admits(after.filters, t);
      var day := if before.start < after.start then after.start else before.start;
      var e := RawEntryInfo("1", "", t, "", On(day), 0, "", true);
      assert Matches(e, after) && Missed(before, after, e);
      Coverage(before, after, e);
    } else {
      forall e: RawEntryInfo | e.day.On? && Matches(e, after)
        ensures Matches(e, before) || MatchesAny(e, Pieces(before, after))
      {
        Coverage(before, after, e);
        assert !Missed(before, after, e) by {
          assert Admits(before.filters, e.threadID) && Admits(after.filters, e.threadID) ==> ShareThread(before, after);
        }
      }
    }
  }

  /** Turning on deleted entries fetches none of those on the days already shown. */
  lemma DeletedAreMissed()
    ensures var before, after := Query(1, 31, [NotDeleted]), Query(1, 31, []);
      var e := RawEntryInfo("1", "", "7", "", On(5), 0, "", true);
      && Pieces(before, after) == []
      && Matches(e, after) && !Matches(e, before)
  {
    var before, after := Query(1, 31, [NotDeleted]), Query(1, 31, []);
    assert Kind(before.filters[0]) == NOT_DELETED;
    assert AddedPiece(before, after) == [];
  }

  // ----- economy -----

  /** No piece asks again for an entry of the old query. */
  lemma PiecesAreNew(before: Query, after: Query, e: RawEntryInfo)
    requires !AsksForAll(before, after) && e.day.On? && MatchesAny(e, Pieces(before, after))
    ensures !Matches(e, before)
  {
    PiecesMatch(before, after, e);
    if e.threadID in AddedThreads(before, after) {
      assert !Admits(before.filters, e.threadID);
    }
  }

  /** No entry is asked for by two pieces. */
  lemma PiecesDisjoint(before: Query, after: Query, i: nat, j: nat, e: RawEntryInfo)
    requires !AsksForAll(before, after) && before.start <= before.end && e.day.On?
    requires i < j < |Pieces(before, after)| && Matches(e, Pieces(before, after)[i])
    ensures !Matches(e, Pieces(before, after)[j])
  {
    assert Pieces(before, after) == AddedPiece(before, after) + EarlierPiece(before, after) + LaterPiece(before, after);
  }

  /** A piece asks for an entry that the new query does not ask for only between two ranges that do not touch. */
  lemma PiecesBeyond(before: Query, after: Query, e: RawEntryInfo)
    requires before.start <= before.end && after.start <= after.end && e.day.On?
    requires MatchesAny(e, Pieces(before, after))
    ensures Matches(e, after) <==> !(after.end < e.day.number < before.start || before.end < e.day.number < after.start)
  {
    if AsksForAll(before, after) {
      MatchesOne(e, Pieces(before, after));
    } else {
      PiecesMatch(before, after, e);
    }
  }

  /** Every piece treats deleted entries as the new query does: what `fetchEntriesForSession` expects. */
  lemma PiecesAgreeOnDeleted(before: Query, after: Query, q: Query)
    requires q in Pieces(before, after)
    ensures HasKind(q.filters, NOT_DELETED) <==> HasKind(after.filters, NOT_DELETED)
  {
    if before != after && !AsksForAll(before, after) {
      if q in AddedPiece(before, after) {
        AddedFilters(after.filters, AddedThreads(before, after), "");
        assert q.filters == Without(after.filters, THREAD_LIST) + [ThreadList(AddedThreads(before, after))];
      } else {
        assert q in EarlierPiece(before, after) || q in LaterPiece(before, after);
        assert q.filters == after.filters;
      }
    }
  }
}
