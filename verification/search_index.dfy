/** The text search index (lib/shared/search-index.js) against a naive search of everything indexed.
    Tokenizing is left to the caller: texts and queries arrive as lower-case keywords. */
module SearchIndex {
  import opened Collections

  /** A Set in insertion order, per key. */
  type Index = map<string, seq<string>>

  /** A call of `addEntry`. */
  datatype Entry = Entry(id: string, keywords: seq<string>)

  /** A tokenized query; `openEnded` says that it ends in a non-whitespace character. */
  datatype Query = Query(keywords: seq<string>, openEnded: bool)

  // ----- the naive search -----

  ghost predicate HasKeyword(entries: seq<Entry>, id: string, keyword: string) {
    exists i :: 0 <= i < |entries| && entries[i].id == id && keyword in entries[i].keywords
  }

  ghost predicate HasPrefix(entries: seq<Entry>, id: string, prefix: string) {
    prefix != "" && exists i, k :: 0 <= i < |entries| && entries[i].id == id && k in entries[i].keywords && StartsWith(k, prefix)
  }

  ghost predicate HasAll(entries: seq<Entry>, id: string, keywords: seq<string>) {
    forall k :: k in keywords ==> HasKeyword(entries, id, k)
  }

  /** The texts added for id contain every keyword of the query, the last one as a prefix if the query is
      open-ended. */
  ghost predicate Matches(entries: seq<Entry>, id: string, q: Query) {
    var n := |q.keywords|;
    && n > 0
    && HasAll(entries, id, q.keywords[..n - 1])
    && (if q.openEnded then HasPrefix(entries, id, q.keywords[n - 1]) else HasKeyword(entries, id, q.keywords[n - 1]))
  }

  // ----- the index -----

  function IDs(index: Index, key: string): seq<string> {
    if key in index then index[key] else []
  }

  /** `index[key] ??= new Set(); index[key].add(id)` */
  function Added(index: Index, key: string, id: string): Index {
    index[key := if id in IDs(index, key) then IDs(index, key) else IDs(index, key) + [id]]
  }

  lemma AddedNoDup(index: Index, key: string, id: string)
    requires forall k :: NoDup(IDs(index, k))
    ensures forall k :: NoDup(IDs(Added(index, key, id), k))
  {
    forall k
      ensures NoDup(IDs(Added(index, key, id), k))
    {
      assert NoDup(IDs(index, k));
      if k == key && id !in IDs(index, key) {
        NoDupConcat(IDs(index, key), [id]);
      }
    }
  }

  ghost predicate Indexes(index: Index, key: string, id: string) {
    id in IDs(index, key)
  }

  lemma AddedMeans(index: Index, key: string, id: string)
    ensures forall k, x :: Indexes(Added(index, key, id), k, x) <==> Indexes(index, k, x) || (k == key && x == id)
  {
  }

  class SearchIndex {
    var fullTextIndex: Index
    var partialTextIndex: Index
    ghost var entries: seq<Entry>

    /** Both indexes hold exactly what the entries say, each ID once. */
    ghost predicate Valid()
      reads this
    {
      && (forall key :: NoDup(IDs(fullTextIndex, key)) && NoDup(IDs(partialTextIndex, key)))
      && (forall key, id :: Indexes(fullTextIndex, key, id) <==> HasKeyword(entries, id, key))
      && (forall key, id :: Indexes(partialTextIndex, key, id) <==> HasPrefix(entries, id, key))
    }

    constructor ()
      ensures Valid() && entries == []
    {
      fullTextIndex, partialTextIndex, entries := map[], map[], [];
    }

    /** `addEntry` */
    method AddEntry(id: string, keywords: seq<string>)
      requires Valid()
      modifies this
      ensures Valid() && entries == old(entries) + [Entry(id, keywords)]
    {
      ghost var before := entries;
      AddNothing(before, id);
      entries := before + [Entry(id, [])];
      for i := 0 to |keywords|
        invariant Valid() && entries == before + [Entry(id, keywords[..i])]
      {
        PrefixNext(keywords, i);
        AddKeyword(before, id, keywords[..i], keywords[i]);
      }
      assert keywords[..|keywords|] == keywords;
    }

    /** One keyword of an entry: into the full index, and all its prefixes into the partial one. */
    method AddKeyword(ghost before: seq<Entry>, id: string, ghost done: seq<string>, value: string)
      requires Valid() && entries == before + [Entry(id, done)]
      modifies this
      ensures Valid() && entries == before + [Entry(id, done + [value])]
    {
      AddedMeans(fullTextIndex, value, id);
      AddedNoDup(fullTextIndex, value, id);
      fullTextIndex := Added(fullTextIndex, value, id);
      ghost var partialBefore := partialTextIndex;
      var partialString := "";
      for i := 0 to |value|
        invariant fullTextIndex == Added(old(fullTextIndex), value, id) && entries == old(entries)
        invariant partialString == value[..i]
        invariant forall key :: NoDup(IDs(partialTextIndex, key))
        invariant forall key, x :: Indexes(partialTextIndex, key, x) <==>
          Indexes(partialBefore, key, x) || (x == id && PrefixUpTo(value, i, key))
      {
        partialString := partialString + [value[i]];
        assert partialString == value[..i + 1];
        PrefixLonger(value, i);
        AddedMeans(partialTextIndex, partialString, id);
        AddedNoDup(partialTextIndex, partialString, id);
        partialTextIndex := Added(partialTextIndex, partialString, id);
      }
      entries := before + [Entry(id, done + [value])];
      KeywordAdded(before, id, done, value);
      forall key, x
        ensures Indexes(fullTextIndex, key, x) <==> HasKeyword(entries, x, key)
      {
        assert Indexes(old(fullTextIndex), key, x) <==> HasKeyword(before + [Entry(id, done)], x, key);
      }
      forall key, x
        ensures Indexes(partialTextIndex, key, x) <==> HasPrefix(entries, x, key)
      {
        assert Indexes(partialBefore, key, x) <==> HasPrefix(before + [Entry(id, done)], x, key);
      }
    }

    /** `getSearchResults`: each ID that the naive search finds, once. */
    method GetSearchResults(q: Query) returns (results: seq<string>)
      requires Valid()
      ensures NoDup(results)
      ensures forall id :: id in results <==> Matches(entries, id, q)
    {
      if |q.keywords| == 0 {
        return [];
      }
      var last := q.keywords[|q.keywords| - 1];
      var index := if q.openEnded then partialTextIndex else fullTextIndex;
      assert forall id :: Indexes(index, last, id) <==>
        if q.openEnded then HasPrefix(entries, id, last) else HasKeyword(entries, id, last);
      assert NoDup(IDs(index, last));
      if last !in index {
        assert forall id :: !Indexes(index, last, id);
        return [];
      }
      results := Narrow(index[last], q.keywords[..|q.keywords| - 1]);
    }

    /** The possible matches that have every one of the keywords. */
    method Narrow(possibleMatches: seq<string>, fullKeywords: seq<string>) returns (results: seq<string>)
      requires Valid() && NoDup(possibleMatches)
      ensures NoDup(results)
      ensures forall id :: id in results <==> id in possibleMatches && HasAll(entries, id, fullKeywords)
    {
      results := possibleMatches;
      for i := 0 to |fullKeywords|
        invariant NoDup(results)
        invariant forall id :: id in results <==> id in possibleMatches && HasAll(entries, id, fullKeywords[..i])
      {
        var keyword := fullKeywords[i];
        assert fullKeywords[..i + 1] == fullKeywords[..i] + [keyword];
        assert forall id :: Indexes(fullTextIndex, keyword, id) <==> HasKeyword(entries, id, keyword);
        forall id
          ensures HasAll(entries, id, fullKeywords[..i + 1]) <==> HasAll(entries, id, fullKeywords[..i]) && HasKeyword(entries, id, keyword)
        {
          HasAllAppend(entries, id, fullKeywords[..i], keyword);
        }
        assert keyword in fullKeywords && forall k :: k in fullKeywords[..i + 1] ==> k in fullKeywords;
        if keyword !in fullTextIndex {
          forall id
            ensures !HasAll(entries, id, fullKeywords)
          {
            assert !Indexes(fullTextIndex, keyword, id) && !HasKeyword(entries, id, keyword);
          }
          return [];
        }
        results := Both(results, fullTextIndex[keyword]);
        if results == [] {
          assert forall id :: HasAll(entries, id, fullKeywords) ==> HasAll(entries, id, fullKeywords[..i + 1]);
          return;
        }
      }
      assert fullKeywords[..|fullKeywords|] == fullKeywords;
    }
  }

  /** `ids.filter(id => others.has(id))` */
  function Both(ids: seq<string>, others: seq<string>): (r: seq<string>)
    requires NoDup(ids)
    ensures NoDup(r)
    ensures forall id :: id in r <==> id in ids && id in others
  {
    if |ids| == 0 then []
    else
      var front, last := Both(ids[..|ids| - 1], others), ids[|ids| - 1];
      if last in others then front + [last] else front
  }

  // ----- what one more keyword adds -----

  ghost predicate PrefixUpTo(value: string, n: nat, key: string)
    requires n <= |value|
  {
    0 < |key| <= n && StartsWith(value, key)
  }

  lemma PrefixLonger(value: string, n: nat)
    requires n < |value|
    ensures forall key :: PrefixUpTo(value, n + 1, key) <==> PrefixUpTo(value, n, key) || key == value[..n + 1]
  {
    forall key
      ensures PrefixUpTo(value, n + 1, key) <==> PrefixUpTo(value, n, key) || key == value[..n + 1]
    {
      if |key| == n + 1 {
        assert StartsWith(value, key) <==> value[..n + 1] == key;
      }
    }
  }

  lemma HasAllAppend(entries: seq<Entry>, id: string, keywords: seq<string>, k: string)
    ensures HasAll(entries, id, keywords + [k]) <==> HasAll(entries, id, keywords) && HasKeyword(entries, id, k)
  {
    assert k in keywords + [k] && forall x :: x in keywords ==> x in keywords + [k];
  }

  lemma EntriesSplit(before: seq<Entry>, e: Entry, id: string, key: string)
    ensures HasKeyword(before + [e], id, key) <==> HasKeyword(before, id, key) || (e.id == id && key in e.keywords)
    ensures HasPrefix(before + [e], id, key) <==>
      HasPrefix(before, id, key) || (key != "" && e.id == id && exists k :: k in e.keywords && StartsWith(k, key))
  {
    var all := before + [e];
    assert all[|before|] == e;
    assert forall i :: 0 <= i < |before| ==> all[i] == before[i];
  }

  lemma AddNothing(before: seq<Entry>, id: string)
    ensures forall x, key :: HasKeyword(before + [Entry(id, [])], x, key) <==> HasKeyword(before, x, key)
    ensures forall x, key :: HasPrefix(before + [Entry(id, [])], x, key) <==> HasPrefix(before, x, key)
  {
    forall x, key
      ensures HasKeyword(before + [Entry(id, [])], x, key) <==> HasKeyword(before, x, key)
      ensures HasPrefix(before + [Entry(id, [])], x, key) <==> HasPrefix(before, x, key)
    {
      EntriesSplit(before, Entry(id, []), x, key);
    }
  }

  lemma KeywordAdded(before: seq<Entry>, id: string, done: seq<string>, value: string)
    ensures forall x, key :: HasKeyword(before + [Entry(id, done + [value])], x, key) <==>
      HasKeyword(before + [Entry(id, done)], x, key) || (x == id && key == value)
    ensures forall x, key :: HasPrefix(before + [Entry(id, done + [value])], x, key) <==>
      HasPrefix(before + [Entry(id, done)], x, key) || (x == id && PrefixUpTo(value, |value|, key))
  {
    forall x, key
      ensures HasKeyword(before + [Entry(id, done + [value])], x, key) <==>
        HasKeyword(before + [Entry(id, done)], x, key) || (x == id && key == value)
      ensures HasPrefix(before + [Entry(id, done + [value])], x, key) <==>
        HasPrefix(before + [Entry(id, done)], x, key) || (x == id && PrefixUpTo(value, |value|, key))
    {
      EntriesSplit(before, Entry(id, done), x, key);
      EntriesSplit(before, Entry(id, done + [value]), x, key);
      assert forall k :: k in done + [value] <==> k in done || k == value;
    }
  }
}
