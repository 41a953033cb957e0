/** Message IDs and the orders built on them (lib/shared/message-utils.js).  An ID is either a decimal
    server ID or `local` followed by a decimal counter; JavaScript's falsy ID (missing or empty) is "". */
module MessageIds {
  import opened Collections

  const LOCAL_PREFIX: string := "local"

  predicate IsLocal(id: string) {
    StartsWith(id, LOCAL_PREFIX)
  }

  datatype Lengths = Lengths(local: nat, realized: nat)

  /** The length one ID asks for, in each of the two families. */
  function LocalWidth(id: string): nat {
    if id != "" && IsLocal(id) then |id| - |LOCAL_PREFIX| else 0
  }

  function RealizedWidth(id: string): nat {
    if id != "" && !IsLocal(id) then |id| else 0
  }

  function MaxLengths(ids: seq<string>): (r: Lengths)
    ensures forall id :: id in ids ==> LocalWidth(id) <= r.local && RealizedWidth(id) <= r.realized
    ensures r.local == 0 || exists id :: id in ids && LocalWidth(id) == r.local
    ensures r.realized == 0 || exists id :: id in ids && RealizedWidth(id) == r.realized
  {
    if |ids| == 0 then Lengths(0, 0)
    else
      var front, last := MaxLengths(ids[..|ids| - 1]), ids[|ids| - 1];
      Lengths(Max(front.local, LocalWidth(last)), Max(front.realized, RealizedWidth(last)))
  }

  method FindMessageIDMaxLengths(ids: seq<string>) returns (result: Lengths)
    ensures result == MaxLengths(ids)
  {
    result := Lengths(0, 0);
    for i := 0 to |ids|
      invariant result == MaxLengths(ids[..i])
    {
      assert ids[..i + 1][..i] == ids[..i];
      var id := ids[i];
      if id != "" {
        if IsLocal(id) {
          result := result.(local := Max(result.local, |id| - |LOCAL_PREFIX|));
        } else {
          result := result.(realized := Max(result.realized, |id|));
        }
      }
    }
    assert ids[..|ids|] == ids;
  }

  /** `padStart(n, '0')`. */
  function PadStart(s: string, n: nat): (r: string)
    ensures |r| == Max(|s|, n)
    decreases n - |s|
  {
    if |s| >= n then s else PadStart("0" + s, n)
  }

  function ExtendMessageID(id: string, lengths: Lengths): string {
    if id == "" then id
    else if IsLocal(id) then LOCAL_PREFIX + PadStart(id[|LOCAL_PREFIX|..], lengths.local)
    else PadStart(id, lengths.realized)
  }

  // ----- numeric reading of IDs -----

  predicate Decimal(s: string) {
    forall i :: 0 <= i < |s| ==> '0' <= s[i] <= '9'
  }

  predicate ServerID(id: string) {
    id != "" && Decimal(id)
  }

  predicate LocalID(id: string) {
    IsLocal(id) && Decimal(id[|LOCAL_PREFIX|..])
  }

  function Pow10(n: nat): (r: nat)
    ensures r > 0
  {
    if n == 0 then 1 else 10 * Pow10(n - 1)
  }

  function Digit(c: char): nat
    requires '0' <= c <= '9'
  {
    c as int - '0' as int
  }

  function Value(s: string): (r: nat)
    requires Decimal(s)
    ensures r < Pow10(|s|)
  {
    if s == "" then 0
    else
      assert s[0] in s && Decimal(s[1..]);
      ValueStep(Digit(s[0]), Value(s[1..]), Pow10(|s| - 1));
      Digit(s[0]) * Pow10(|s| - 1) + Value(s[1..])
  }

  lemma ValueStep(d: nat, v: nat, p: nat)
    requires d <= 9 && v < p
    ensures 0 <= d * p + v < 10 * p
  {
    assert d * p <= 9 * p;
  }

  lemma {:induction false} PadStartKeepsValue(s: string, n: nat)
    requires Decimal(s)
    ensures Decimal(PadStart(s, n)) && Value(PadStart(s, n)) == Value(s)
    decreases n - |s|
  {
    if |s| < n {
      assert ("0" + s)[1..] == s;
      PadStartKeepsValue("0" + s, n);
    }
  }

  /** At equal width, comparing decimal strings is comparing their values. */
  lemma {:induction false} EqualWidthOrder(a: string, b: string)
    requires Decimal(a) && Decimal(b) && |a| == |b|
    ensures StrLess(a, b) <==> Value(a) < Value(b)
    ensures Value(a) == Value(b) <==> a == b
  {
    if a != "" {
      assert Decimal(a[1..]) && Decimal(b[1..]);
      EqualWidthOrder(a[1..], b[1..]);
      CompareLeadingDigits(Digit(a[0]), Digit(b[0]), Value(a[1..]), Value(b[1..]), Pow10(|a| - 1));
      assert a == [a[0]] + a[1..] && b == [b[0]] + b[1..];
    }
  }

  lemma CompareLeadingDigits(da: nat, db: nat, va: nat, vb: nat, p: nat)
    requires va < p && vb < p
    ensures da * p + va < db * p + vb <==> da < db || (da == db && va < vb)
    ensures da * p + va == db * p + vb <==> da == db && va == vb
  {
    if da < db {
      assert (da + 1) * p <= db * p;
    } else if db < da {
      assert (db + 1) * p <= da * p;
    }
  }

  /** Padding makes string order on decimal IDs of any length agree with numeric order. */
  lemma PaddedOrderIsNumeric(a: string, b: string, lengths: Lengths)
    requires ServerID(a) && ServerID(b) && |a| <= lengths.realized && |b| <= lengths.realized
    ensures StrLess(ExtendMessageID(a, lengths), ExtendMessageID(b, lengths)) <==> Value(a) < Value(b)
    ensures ExtendMessageID(a, lengths) == ExtendMessageID(b, lengths) <==> Value(a) == Value(b)
  {
    PadStartKeepsValue(a, lengths.realized);
    PadStartKeepsValue(b, lengths.realized);
    EqualWidthOrder(PadStart(a, lengths.realized), PadStart(b, lengths.realized));
  }

  /** No ID is both local and decimal. */
  lemma ServerIsNotLocal(id: string)
    requires ServerID(id)
    ensures !IsLocal(id) && RealizedWidth(id) == |id|
  {
    assert '0' <= id[0] <= '9';
  }

  lemma {:induction false} StrLessCommonPrefix(p: string, a: string, b: string)
    ensures StrLess(p + a, p + b) == StrLess(a, b)
  {
    if p == "" {
      assert p + a == a && p + b == b;
    } else {
      assert (p + a)[1..] == p[1..] + a && (p + b)[1..] == p[1..] + b;
      StrLessCommonPrefix(p[1..], a, b);
    }
  }

  /** The same for local IDs: `local10` is after `local9`. */
  lemma LocalPaddedOrderIsNumeric(a: string, b: string, lengths: Lengths)
    requires LocalID(a) && LocalID(b) && |a| - 5 <= lengths.local && |b| - 5 <= lengths.local
    ensures StrLess(ExtendMessageID(a, lengths), ExtendMessageID(b, lengths)) <==> Value(a[5..]) < Value(b[5..])
  {
    PadStartKeepsValue(a[5..], lengths.local);
    PadStartKeepsValue(b[5..], lengths.local);
    StrLessCommonPrefix(LOCAL_PREFIX, PadStart(a[5..], lengths.local), PadStart(b[5..], lengths.local));
    EqualWidthOrder(PadStart(a[5..], lengths.local), PadStart(b[5..], lengths.local));
  }

  /** Local IDs are above every server ID. */
  lemma LocalAboveServer(a: string, b: string, lengths: Lengths)
    requires ServerID(a) && LocalID(b)
    ensures StrLess(ExtendMessageID(a, lengths), ExtendMessageID(b, lengths))
  {
    PadStartKeepsValue(a, lengths.realized);
  }

  // ----- the width of the padding does not matter -----

  lemma {:induction false} PadStartWider(s: string, n: nat)
    requires |s| <= n
    ensures PadStart(s, n + 1) == "0" + PadStart(s, n)
    decreases n - |s|
  {
    if |s| < n {
      PadStartWider("0" + s, n);
    }
  }

  lemma {:induction false} PaddedOrderStable(a: string, b: string, m: nat, n: nat)
    requires |a| <= m && |b| <= m && m <= n
    ensures StrLess(PadStart(a, m), PadStart(b, m)) == StrLess(PadStart(a, n), PadStart(b, n))
    decreases n - m
  {
    if m < n {
      PadStartWider(a, m);
      PadStartWider(b, m);
      StrLessCommonPrefix("0", PadStart(a, m), PadStart(b, m));
      PaddedOrderStable(a, b, m + 1, n);
    }
  }

  predicate WellFormedID(id: string) {
    IsLocal(id) || ServerID(id)
  }

  /** IDs whose order is that of their text and no accident of padding. */
  predicate Comparable(a: string, b: string) {
    a != "" && b != "" && ((IsLocal(a) <==> IsLocal(b)) || (WellFormedID(a) && WellFormedID(b)))
  }

  ghost predicate Fits(id: string, lengths: Lengths) {
    LocalWidth(id) <= lengths.local && RealizedWidth(id) <= lengths.realized
  }

  lemma ServerBelowLocal(a: string, b: string, lengths: Lengths)
    requires ServerID(a) && IsLocal(b)
    ensures StrLess(ExtendMessageID(a, lengths), ExtendMessageID(b, lengths))
    ensures !StrLess(ExtendMessageID(b, lengths), ExtendMessageID(a, lengths))
  {
    PadStartKeepsValue(a, lengths.realized);
    ServerIsNotLocal(a);
    var x, y := ExtendMessageID(a, lengths), ExtendMessageID(b, lengths);
    assert '0' <= x[0] <= '9' && y[0] == 'l';
  }

  /** Padding to one width orders two IDs as padding to any other width does. */
  lemma OrderIgnoresWidth(a: string, b: string, l: Lengths, k: Lengths)
    requires Comparable(a, b) && Fits(a, l) && Fits(b, l) && Fits(a, k) && Fits(b, k)
    ensures StrLess(ExtendMessageID(a, l), ExtendMessageID(b, l)) == StrLess(ExtendMessageID(a, k), ExtendMessageID(b, k))
  {
    if IsLocal(a) && IsLocal(b) {
      var x, y := a[|LOCAL_PREFIX|..], b[|LOCAL_PREFIX|..];
      StrLessCommonPrefix(LOCAL_PREFIX, PadStart(x, l.local), PadStart(y, l.local));
      StrLessCommonPrefix(LOCAL_PREFIX, PadStart(x, k.local), PadStart(y, k.local));
      var least := Max(|x|, |y|);
      PaddedOrderStable(x, y, least, l.local);
      PaddedOrderStable(x, y, least, k.local);
    } else if !IsLocal(a) && !IsLocal(b) {
      var least := Max(|a|, |b|);
      PaddedOrderStable(a, b, least, l.realized);
      PaddedOrderStable(a, b, least, k.realized);
    } else if IsLocal(b) {
      ServerBelowLocal(a, b, l);
      ServerBelowLocal(a, b, k);
    } else {
      ServerBelowLocal(b, a, l);
      ServerBelowLocal(b, a, k);
    }
  }

  // ----- descending, stable sort on (time, padded ID) -----

  /** The pair `_orderBy` compares.  `pad` is None for a message without server ID, which lodash
      orders above every string. */
  datatype Pad = Padded(s: string) | Missing
  datatype Rank = Rank(time: int, pad: Pad)

  predicate PadLess(a: Pad, b: Pad) {
    match (a, b)
    case (Padded(s), Padded(t)) => StrLess(s, t)
    case (Padded(_), Missing) => true
    case (Missing, _) => false
  }

  predicate RankLess(a: Rank, b: Rank) {
    a.time < b.time || (a.time == b.time && PadLess(a.pad, b.pad))
  }

  lemma RankLessNegTransitive(a: Rank, b: Rank, c: Rank)
    requires !RankLess(a, b) && !RankLess(b, c)
    ensures !RankLess(a, c)
  {
    if RankLess(a, c) && a.time == b.time == c.time {
      match (a.pad, b.pad, c.pad)
      case (Padded(s), Padded(t), Padded(u)) =>
        StrLessTotal(s, t);
        StrLessTotal(t, u);
        if StrLess(t, s) && StrLess(u, t) {
          StrLessTransitive(u, t, s);
          StrLessTransitive(u, s, u);
          StrLessIrreflexive(u);
        }
      case _ =>
    }
  }

  lemma RankLessAsymmetric(a: Rank, b: Rank)
    requires RankLess(a, b)
    ensures !RankLess(b, a)
  {
    if RankLess(b, a) {
      match (a.pad, b.pad)
      case (Padded(s), Padded(t)) =>
        StrLessTransitive(s, t, s);
        StrLessIrreflexive(s);
      case _ =>
    }
  }

  datatype Ranked<T> = Ranked(rank: Rank, item: T)

  /** Descending: no later element ranks above an earlier one. */
  ghost predicate Descending<T>(s: seq<Ranked<T>>) {
    forall i, j :: 0 <= i < j < |s| ==> !RankLess(s[i].rank, s[j].rank)
  }

  function Items<T>(s: seq<Ranked<T>>): seq<T> {
    seq(|s|, i requires 0 <= i < |s| => s[i].item)
  }

  lemma ItemsCons<T>(x: Ranked<T>, s: seq<Ranked<T>>)
    ensures Items([x] + s) == [x.item] + Items(s)
  {
  }

  /** Putting x into the tail puts it into the list. */
  lemma InsertedBags<T>(x: Ranked<T>, s: seq<Ranked<T>>, rest: seq<Ranked<T>>)
    requires |s| > 0 && multiset(rest) == multiset([x] + s[1..]) && multiset(Items(rest)) == multiset([x.item] + Items(s[1..]))
    ensures multiset([s[0]] + rest) == multiset([x] + s)
    ensures multiset(Items([s[0]] + rest)) == multiset([x.item] + Items(s))
  {
    var head, tail := s[0], s[1..];
    assert s == [head] + tail;
    ItemsCons(head, rest);
    ItemsCons(head, tail);
  }

  lemma FirstBags<T>(x: Ranked<T>, s: seq<Ranked<T>>)
    ensures multiset(Items([x] + s)) == multiset([x.item] + Items(s))
    ensures s == [] ==> [x] + s == [x]
  {
    ItemsCons(x, s);
  }

  function Insert<T>(x: Ranked<T>, s: seq<Ranked<T>>): (r: seq<Ranked<T>>)
    ensures multiset(r) == multiset([x] + s)
    ensures multiset(Items(r)) == multiset([x.item] + Items(s))
  {
    if s != [] && RankLess(x.rank, s[0].rank) then
      var rest := Insert(x, s[1..]);
      InsertedBags(x, s, rest);
      [s[0]] + rest
    else
      FirstBags(x, s);
      [x] + s
  }

  /** lodash's stable `_orderBy([...])(['desc', 'desc'])`: equal ranks keep their order. */
  function SortDesc<T>(s: seq<Ranked<T>>): (r: seq<Ranked<T>>)
    ensures multiset(r) == multiset(s)
    ensures multiset(Items(r)) == multiset(Items(s))
  {
    if s == [] then [] else
      assert s == [s[0]] + s[1..];
      ItemsCons(s[0], s[1..]);
      Insert(s[0], SortDesc(s[1..]))
  }

  lemma InsertMember<T>(x: Ranked<T>, s: seq<Ranked<T>>, y: Ranked<T>)
    requires y in Insert(x, s)
    ensures y == x || y in s
  {
    assert y in multiset(Insert(x, s)) && y in [x] + s;
  }

  lemma {:induction false} InsertDescending<T>(x: Ranked<T>, s: seq<Ranked<T>>)
    requires Descending(s)
    ensures Descending(Insert(x, s))
  {
    if s == [] {
      assert [x] + s == [x];
    } else if RankLess(x.rank, s[0].rank) {
      InsertDescending(x, s[1..]);
      var rest := Insert(x, s[1..]);
      forall j | 0 <= j < |rest|
        ensures !RankLess(s[0].rank, rest[j].rank)
      {
        InsertMember(x, s[1..], rest[j]);
        if rest[j] == x {
          RankLessAsymmetric(x.rank, s[0].rank);
        }
      }
    } else {
      forall j | 0 <= j < |s|
        ensures !RankLess(x.rank, s[j].rank)
      {
        if j > 0 {
          RankLessNegTransitive(x.rank, s[0].rank, s[j].rank);
        }
      }
    }
  }

  lemma {:induction false} SortDescDescending<T>(s: seq<Ranked<T>>)
    ensures Descending(SortDesc(s))
  {
    if s != [] {
      SortDescDescending(s[1..]);
      InsertDescending(s[0], SortDesc(s[1..]));
    }
  }
}
