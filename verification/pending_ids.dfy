/** Pending thread IDs read back (lib/shared/thread-utils.js:277-306), and their independence of the
    order of members. */
module PendingIDs {
  import opened Collections
  import opened MessageIds
  import opened PendingThreads

  const SIDEBAR := 5

  /** `sourceMessageID` is "" for null. */
  datatype Contents = Contents(threadType: nat, memberIDs: seq<string>, sourceMessageID: string)

  /** The [0-9]+ of the regular expression. */
  predicate Digits(s: string) {
    s != "" && Decimal(s)
  }

  predicate AllDigits(parts: seq<string>) {
    forall i :: 0 <= i < |parts| ==> Digits(parts[i])
  }

  function Number(s: string): nat
    requires Decimal(s)
  {
    if s == "" then 0
    else
      assert Decimal(s[..|s| - 1]) && s[|s| - 1] in s;
      Number(s[..|s| - 1]) * 10 + Digit(s[|s| - 1])
  }

  /** `s.split(sep)` */
  function Split(s: string, sep: char): (r: seq<string>)
    ensures |r| > 0
  {
    if s == "" then [""]
    else
      var rest := Split(s[1..], sep);
      if s[0] == sep then [""] + rest else [[s[0]] + rest[0]] + rest[1..]
  }

  /** `assertThreadType` accepts it. */
  predicate IsThreadType(n: nat) {
    3 <= n <= 12
  }

  /** The string matches `pendingThreadIDRegex`, whose alternatives contain no slash of their own. */
  predicate IsPendingID(s: string) {
    var parts := Split(s, '/');
    && |parts| == 3 && parts[0] == "pending"
    && ((parts[1] == "sidebar" && Digits(parts[2]))
        || (StartsWith(parts[1], "type") && Digits(parts[1][4..]) && AllDigits(Split(parts[2], '+'))))
  }

  /** `parsePendingThreadID`; throws on a number that is no thread type. */
  function ParsePendingThreadID(s: string): Outcome<Option<Contents>> {
    if !IsPendingID(s) then Ok(None)
    else
      var parts := Split(s, '/');
      if parts[1] == "sidebar" then Ok(Some(Contents(SIDEBAR, [], parts[2])))
      else
        var threadType := Number(parts[1][4..]);
        if IsThreadType(threadType) then Ok(Some(Contents(threadType, Split(parts[2], '+'), ""))) else Throw
  }

  // ----- splitting and joining -----

  lemma {:induction false} SplitNone(p: string, sep: char)
    requires sep !in p
    ensures Split(p, sep) == [p]
  {
    if p != "" {
      assert p == [p[0]] + p[1..];
      SplitNone(p[1..], sep);
    }
  }

  lemma {:induction false} SplitFirst(p: string, sep: char, rest: string)
    requires sep !in p
    ensures Split(p + [sep] + rest, sep) == [p] + Split(rest, sep)
  {
    var s := p + [sep] + rest;
    if p == "" {
      assert s[1..] == rest;
    } else {
      assert p == [p[0]] + p[1..] && s[1..] == p[1..] + [sep] + rest;
      SplitFirst(p[1..], sep, rest);
    }
  }

  lemma {:induction false} SplitJoin(parts: seq<string>, sep: char)
    requires |parts| > 0 && forall i :: 0 <= i < |parts| ==> sep !in parts[i]
    ensures Split(Join(parts, [sep]), sep) == parts
  {
    if |parts| == 1 {
      SplitNone(parts[0], sep);
    } else {
      SplitJoin(parts[1..], sep);
      SplitFirst(parts[0], sep, Join(parts[1..], [sep]));
      assert parts == [parts[0]] + parts[1..];
    }
  }

  lemma {:induction false} JoinSplit(s: string, sep: char)
    ensures Join(Split(s, sep), [sep]) == s
  {
    if s != "" {
      var rest := Split(s[1..], sep);
      JoinSplit(s[1..], sep);
      assert s == [s[0]] + s[1..];
      if s[0] == sep {
        assert ([""] + rest)[1..] == rest;
      } else {
        assert ([[s[0]] + rest[0]] + rest[1..])[1..] == rest[1..];
      }
    }
  }

  lemma {:induction false} DecimalStringReads(n: nat)
    ensures Digits(DecimalString(n)) && Number(DecimalString(n)) == n
    decreases n
  {
    var s := DecimalString(n);
    if n >= 10 {
      DecimalStringReads(n / 10);
      assert s[..|s| - 1] == DecimalString(n / 10);
    } else {
      assert s[..|s| - 1] == "";
    }
  }

  lemma {:induction false} JoinDigits(parts: seq<string>)
    requires AllDigits(parts)
    ensures '/' !in Join(parts, "+")
  {
    if |parts| > 1 {
      JoinDigits(parts[1..]);
    }
  }

  lemma NoSlash(parts: seq<string>)
    requires AllDigits(parts)
    ensures forall i :: 0 <= i < |parts| ==> '+' !in parts[i] && '/' !in parts[i]
  {
  }

  // ----- round trips -----

  lemma Pieces(a: string, b: string)
    requires '/' !in a && '/' !in b
    ensures Split("pending/" + a + "/" + b, '/') == ["pending", a, b]
  {
    SplitNone(b, '/');
    SplitFirst(a, '/', b);
    SplitFirst("pending", '/', a + ['/'] + b);
    assert "pending/" + a + "/" + b == "pending" + ['/'] + (a + ['/'] + b);
  }

  lemma SortedDigits(memberIDs: seq<string>)
    requires AllDigits(memberIDs)
    ensures AllDigits(SortStrings(memberIDs)) && |SortStrings(memberIDs)| == |memberIDs|
  {
    var sorted := SortStrings(memberIDs);
    SameMultiset(sorted, memberIDs);
    forall i | 0 <= i < |sorted|
      ensures Digits(sorted[i])
    {
      assert sorted[i] in memberIDs;
    }
  }

  /** Reading a typed ID. */
  lemma TypedParses(digits: string, members: seq<string>)
    requires Digits(digits) && IsThreadType(Number(digits)) && |members| > 0 && AllDigits(members)
    ensures ParsePendingThreadID("pending/" + ("type" + digits) + "/" + Join(members, "+"))
         == Ok(Some(Contents(Number(digits), members, "")))
  {
    NoSlash(members);
    JoinDigits(members);
    SplitJoin(members, '+');
    assert ("type" + digits)[4..] == digits && ("type" + digits)[..4] == "type";
    Pieces("type" + digits, Join(members, "+"));
    assert ("type" + digits)[0] != "sidebar"[0];
  }

  lemma Regroup(a: string, b: string, c: string, d: string, e: string)
    ensures a + (b + c + d) + e == a + (b + c) + d + e
  {
  }

  lemma PrintedTyped(threadType: nat, memberIDs: seq<string>)
    ensures GetPendingThreadID(threadType, memberIDs, "")
         == "pending/" + ("type" + DecimalString(threadType)) + "/" + Join(SortStrings(memberIDs), "+")
  {
    Regroup("pending/", "type", DecimalString(threadType), "/", Join(SortStrings(memberIDs), "+"));
  }

  /** Reading a printed ID gives the thread type and the sorted members. */
  lemma MembersRoundTrip(threadType: nat, memberIDs: seq<string>)
    requires IsThreadType(threadType) && |memberIDs| > 0 && AllDigits(memberIDs)
    ensures ParsePendingThreadID(GetPendingThreadID(threadType, memberIDs, ""))
         == Ok(Some(Contents(threadType, SortStrings(memberIDs), "")))
  {
    var sorted, digits := SortStrings(memberIDs), DecimalString(threadType);
    SortedDigits(memberIDs);
    DecimalStringReads(threadType);
    TypedParses(digits, sorted);
    PrintedTyped(threadType, memberIDs);
  }

  /** Reading a printed sidebar ID gives SIDEBAR and the source message. */
  lemma SidebarRoundTrip(threadType: nat, memberIDs: seq<string>, sourceMessageID: string)
    requires Digits(sourceMessageID)
    ensures ParsePendingThreadID(GetPendingThreadID(threadType, memberIDs, sourceMessageID)) == Ok(Some(Contents(SIDEBAR, [], sourceMessageID)))
  {
    Pieces("sidebar", sourceMessageID);
    assert "pending/" + "" + ("sidebar/" + sourceMessageID) == "pending/" + "sidebar" + "/" + sourceMessageID;
  }

  /** What was read is what the ID says: the members as written, and the type by its number. */
  lemma ParsedIsWritten(s: string, c: Contents)
    requires ParsePendingThreadID(s) == Ok(Some(c))
    ensures if c.sourceMessageID != "" then s == GetPendingThreadID(c.threadType, c.memberIDs, c.sourceMessageID)
      else exists digits :: Digits(digits) && Number(digits) == c.threadType && s == "pending/type" + digits + "/" + Join(c.memberIDs, "+")
  {
    var parts := Split(s, '/');
    JoinSplit(s, '/');
    assert parts == [parts[0], parts[1], parts[2]];
    JoinThree(parts[0], parts[1], parts[2]);
    if parts[1] == "sidebar" {
      assert s == "pending/" + "" + ("sidebar/" + parts[2]);
    } else {
      JoinSplit(parts[2], '+');
      TypedWritten(s, parts[1], parts[2], parts[1][4..]);
    }
  }

  lemma TypedWritten(s: string, a: string, b: string, digits: string)
    requires s == "pending" + "/" + a + "/" + b && |a| >= 4 && a[..4] == "type" && digits == a[4..]
    ensures s == "pending/type" + digits + "/" + b
  {
    assert a == "type" + digits;
    assert "pending" + "/" + ("type" + digits) == "pending/type" + digits;
  }

  lemma JoinThree(a: string, b: string, c: string)
    ensures Join([a, b, c], "/") == a + "/" + b + "/" + c
  {
    assert [a, b, c][1..] == [b, c] && [b, c][1..] == [c];
    assert Join([b, c], "/") == b + "/" + c;
    assert a + "/" + (b + "/" + c) == a + "/" + b + "/" + c;
  }

  // ----- the order of members does not matter -----

  ghost predicate SortedStrings(s: seq<string>) {
    forall i, j :: 0 <= i < j < |s| ==> !StrLess(s[j], s[i])
  }

  lemma {:induction false} InsertSorted(x: string, s: seq<string>)
    requires SortedStrings(s)
    ensures SortedStrings(InsertString(x, s))
  {
    if s == [] {
    } else if StrLess(x, s[0]) {
      forall j | 0 <= j < |s|
        ensures !StrLess(s[j], x)
      {
        if StrLess(s[j], x) {
          StrLessTransitive(s[j], x, s[0]);
          StrLessIrreflexive(s[0]);
        }
      }
    } else {
      InsertSorted(x, s[1..]);
      var rest := InsertString(x, s[1..]);
      forall j | 0 <= j < |rest|
        ensures !StrLess(rest[j], s[0])
      {
        assert rest[j] in multiset([x] + s[1..]);
        assert rest[j] == x || rest[j] in s[1..];
      }
    }
  }

  lemma {:induction false} SortSorts(s: seq<string>)
    ensures SortedStrings(SortStrings(s))
  {
    if s != [] {
      SortSorts(s[1..]);
      InsertSorted(s[0], SortStrings(s[1..]));
    }
  }

  lemma {:induction false} OneSortedOrder(a: seq<string>, b: seq<string>)
    requires SortedStrings(a) && SortedStrings(b) && multiset(a) == multiset(b)
    ensures a == b
    decreases |a|
  {
    SameMultiset(a, b);
    if |a| > 0 {
      SameHead(a, b);
      TailBag(a);
      TailBag(b);
      OneSortedOrder(a[1..], b[1..]);
    }
  }

  lemma TailBag(s: seq<string>)
    requires |s| > 0
    ensures s == [s[0]] + s[1..] && multiset(s[1..]) == multiset(s) - multiset{s[0]}
  {
    assert s == [s[0]] + s[1..];
  }

  lemma SameHead(a: seq<string>, b: seq<string>)
    requires |a| > 0 && |b| > 0 && SortedStrings(a) && SortedStrings(b) && forall x :: x in a <==> x in b
    ensures a[0] == b[0]
  {
    assert a[0] in b && b[0] in a;
    var i :| 0 <= i < |b| && b[i] == a[0];
    var j :| 0 <= j < |a| && a[j] == b[0];
    StrLessTotal(a[0], b[0]);
  }

  /** The same members in another order print as the same pending ID. */
  lemma MemberOrderIgnored(threadType: nat, a: seq<string>, b: seq<string>, sourceMessageID: string)
    requires multiset(a) == multiset(b)
    ensures GetPendingThreadID(threadType, a, sourceMessageID) == GetPendingThreadID(threadType, b, sourceMessageID)
  {
    SortSorts(a);
    SortSorts(b);
    OneSortedOrder(SortStrings(a), SortStrings(b));
  }

  /** Different sets of members, or different types, print as different pending IDs. */
  lemma PrintingSeparates(t: nat, a: seq<string>, u: nat, b: seq<string>)
    requires IsThreadType(t) && IsThreadType(u) && |a| > 0 && |b| > 0 && AllDigits(a) && AllDigits(b)
    requires GetPendingThreadID(t, a, "") == GetPendingThreadID(u, b, "")
    ensures t == u && multiset(a) == multiset(b)
  {
    MembersRoundTrip(t, a);
    MembersRoundTrip(u, b);
    assert multiset(SortStrings(a)) == multiset(a) && multiset(SortStrings(b)) == multiset(b);
  }
}
