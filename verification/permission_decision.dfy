/** Which of the entries that a parent hands down decides a child's permission: the exact rule, also where
    roles deny what others grant. */
module PermissionDecision {
  import opened Permissions
  import opened PermissionChain

  /** A propagated entry for permission p with filter f. */
  ghost predicate Handed(e: Entry, f: Filter, p: string) {
    e.key.propagation in {Child, Descendant} && e.key.filter == f && e.key.permission == p
  }

  /** The entry is handed down to threads of type t as permission p. */
  ghost predicate HandsDown(e: Entry, t: ThreadType, p: string) {
    Handed(e, e.key.filter, p) && Includes(e.key.filter, t)
  }

  /** The place of the first propagated entry with this filter, |b| without any. */
  ghost function FirstOf(b: Blob, f: Filter, p: string): (n: nat)
    ensures n <= |b|
    ensures n < |b| ==> Handed(b[n], f, p)
    ensures forall m :: 0 <= m < n ==> !Handed(b[m], f, p)
  {
    if |b| == 0 then 0
    else
      var n := FirstOf(b[..|b| - 1], f, p);
      if n < |b| - 1 then n else if Handed(b[|b| - 1], f, p) then |b| - 1 else |b|
  }

  /** Of the entries handed down, the one that decides has the filter that first occurs last, and is the
      last one with this filter. */
  ghost predicate Decides(b: Blob, t: ThreadType, p: string, n: nat) {
    && n < |b| && HandsDown(b[n], t, p)
    && forall m: nat :: m < |b| && m != n && HandsDown(b[m], t, p)
         ==> if b[m].key.filter == b[n].key.filter then m < n else FirstOf(b, b[m].key.filter, p) < FirstOf(b, b[n].key.filter, p)
  }

  // ----- where keys stand -----

  ghost function Place(c: Blob, k: Key): (n: nat)
    ensures n <= |c|
    ensures n < |c| ==> c[n].key == k
    ensures forall m :: 0 <= m < n ==> c[m].key != k
  {
    if |c| == 0 then 0
    else
      var n := Place(c[..|c| - 1], k);
      if n < |c| - 1 then n else if c[|c| - 1].key == k then |c| - 1 else |c|
  }

  lemma PlaceUnique(c: Blob, k: Key, n: nat)
    requires n <= |c| && (n < |c| ==> c[n].key == k) && forall m :: 0 <= m < n ==> c[m].key != k
    ensures Place(c, k) == n
  {
  }

  lemma PlaceLookup(c: Blob, k: Key)
    ensures Place(c, k) < |c| <==> Lookup(c, k).Info?
  {
    LookupEntry(c, k);
    if Lookup(c, k).Info? {
      var m :| 0 <= m < |c| && c[m] == Entry(k, Lookup(c, k).info);
    }
  }

  /** Writing a key moves no other; a new key comes last. */
  lemma PlaceSet(c: Blob, k: Key, info: Info, x: Key)
    ensures |Set(c, k, info)| == if Lookup(c, k).Info? then |c| else |c| + 1
    ensures Place(Set(c, k, info), x) ==
            if Lookup(c, k).Info? || Place(c, x) < |c| then Place(c, x) else if x == k then |c| else |c| + 1
  {
    var r := Set(c, k, info);
    PlaceLookup(c, k);
    if Lookup(c, k).Info? {
      ReplacedKeys(c, k, info);
      PlaceUnique(r, x, Place(c, x));
    } else {
      PlaceUnique(r, x, if Place(c, x) < |c| then Place(c, x) else if x == k then |c| else |c| + 1);
    }
  }

  function Sent(f: Filter, p: string): Key {
    Key(NotPropagated, f, p)
  }

  /** What one more entry of the parent's blob does to the children's. */
  function OneMore(c: Blob, e: Entry): Blob {
    if e.key.propagation.NotPropagated? then c
    else Set(if e.key.propagation.Descendant? then Set(c, e.key, e.info) else c, Sent(e.key.filter, e.key.permission), e.info)
  }

  lemma PlaceOneMore(c: Blob, e: Entry, f: Filter, p: string)
    ensures var q, r := Place(c, Sent(f, p)), OneMore(c, e);
      && |r| >= |c|
      && (Handed(e, f, p) && q == |c| ==> |r| > |c|)
      && Place(r, Sent(f, p)) == if q < |c| then q else if Handed(e, f, p) then |r| - 1 else |r|
  {
    if !e.key.propagation.NotPropagated? {
      var kept := if e.key.propagation.Descendant? then Set(c, e.key, e.info) else c;
      PlaceSet(c, e.key, e.info, Sent(f, p));
      PlaceSet(kept, Sent(e.key.filter, e.key.permission), e.info, Sent(f, p));
      PlaceLookup(kept, Sent(e.key.filter, e.key.permission));
    }
  }

  /** Filters stand in the children's blob in the order in which they first occur in the parent's. */
  lemma {:induction false} ForChildrenOrder(b: Blob, p: string, f: Filter, g: Filter)
    ensures var c := ForChildren(b);
      && (Place(c, Sent(f, p)) < |c| <==> FirstOf(b, f, p) < |b|)
      && (Place(c, Sent(g, p)) < |c| <==> FirstOf(b, g, p) < |b|)
      && (Place(c, Sent(f, p)) < Place(c, Sent(g, p)) <==> FirstOf(b, f, p) < FirstOf(b, g, p))
  {
    if |b| > 0 {
      var front, e := ForChildren(b[..|b| - 1]), b[|b| - 1];
      ForChildrenOrder(b[..|b| - 1], p, f, g);
      assert ForChildren(b) == OneMore(front, e);
      PlaceOneMore(front, e, f, p);
      PlaceOneMore(front, e, g, p);
    }
  }

  // ----- the entry that decides -----

  /** The entry of the children's blob lands as permission p. */
  ghost predicate Lands(e: Entry, t: ThreadType, p: string) {
    e.key == Sent(e.key.filter, p) && Includes(e.key.filter, t)
  }

  ghost predicate LandsLast(c: Blob, t: ThreadType, p: string, n: nat) {
    n < |c| && Lands(c[n], t, p) && forall m: nat :: n < m < |c| ==> !Lands(c[m], t, p)
  }

  lemma {:induction false} LastLands(c: Blob, t: ThreadType, p: string, n: nat)
    requires LandsLast(c, t, p, n)
    ensures Lookup(Inherited(c, t), Plain(p)) == Info(c[n].info)
  {
    var front, e := c[..|c| - 1], c[|c| - 1];
    LookupSet(Inherited(front, t), Target(e.key), e.info, Plain(p));
    if n < |c| - 1 {
      assert !Lands(c[|c| - 1], t, p);
      LastLands(front, t, p, n);
    }
  }

  lemma {:induction false} SomeLandsLast(c: Blob, t: ThreadType, p: string) returns (n: nat)
    requires Lookup(Inherited(c, t), Plain(p)).Info?
    ensures LandsLast(c, t, p, n)
  {
    var front, e := c[..|c| - 1], c[|c| - 1];
    if Lands(e, t, p) {
      n := |c| - 1;
    } else {
      LookupSet(Inherited(front, t), Target(e.key), e.info, Plain(p));
      n := SomeLandsLast(front, t, p);
    }
  }

  lemma {:induction false} ForChildrenUnique(b: Blob)
    ensures UniqueKeys(ForChildren(b))
  {
    if |b| > 0 {
      var front, e := ForChildren(b[..|b| - 1]), b[|b| - 1];
      ForChildrenUnique(b[..|b| - 1]);
      if !e.key.propagation.NotPropagated? {
        var kept := if e.key.propagation.Descendant? then Set(front, e.key, e.info) else front;
        SetUnique(front, e.key, e.info);
        SetUnique(kept, Sent(e.key.filter, e.key.permission), e.info);
      }
    }
  }

  lemma PlaceOf(c: Blob, n: nat)
    requires UniqueKeys(c) && n < |c|
    ensures Place(c, c[n].key) == n
  {
  }

  ghost predicate HandedLast(b: Blob, f: Filter, p: string, n: nat) {
    n < |b| && Handed(b[n], f, p) && forall m: nat :: n < m < |b| ==> !Handed(b[m], f, p)
  }

  lemma LookupOneMore(c: Blob, e: Entry, f: Filter, p: string)
    ensures Lookup(OneMore(c, e), Sent(f, p)) == if Handed(e, f, p) then Info(e.info) else Lookup(c, Sent(f, p))
  {
    if !e.key.propagation.NotPropagated? {
      var kept := if e.key.propagation.Descendant? then Set(c, e.key, e.info) else c;
      LookupSet(c, e.key, e.info, Sent(f, p));
      LookupSet(kept, Sent(e.key.filter, e.key.permission), e.info, Sent(f, p));
    }
  }

  /** The last entry with a filter is the one the children's blob keeps. */
  lemma {:induction false} LastSent(b: Blob, f: Filter, p: string, n: nat)
    requires HandedLast(b, f, p, n)
    ensures Lookup(ForChildren(b), Sent(f, p)) == Info(b[n].info)
  {
    assert ForChildren(b) == OneMore(ForChildren(b[..|b| - 1]), b[|b| - 1]);
    LookupOneMore(ForChildren(b[..|b| - 1]), b[|b| - 1], f, p);
    if n < |b| - 1 {
      assert !Handed(b[|b| - 1], f, p);
      LastSent(b[..|b| - 1], f, p, n);
    }
  }

  lemma {:induction false} SomeHandedLast(b: Blob, f: Filter, p: string) returns (n: nat)
    requires FirstOf(b, f, p) < |b|
    ensures HandedLast(b, f, p, n)
  {
    if Handed(b[|b| - 1], f, p) {
      n := |b| - 1;
    } else {
      n := SomeHandedLast(b[..|b| - 1], f, p);
    }
  }

  lemma HandedFirst(b: Blob, f: Filter, p: string, n: nat)
    requires n < |b| && Handed(b[n], f, p)
    ensures FirstOf(b, f, p) <= n
  {
  }

  /** The deciding entry is kept, and nothing lands after it. */
  lemma DecidesLandsLast(b: Blob, t: ThreadType, p: string, n: nat)
    requires Decides(b, t, p, n)
    ensures var c := ForChildren(b); var q := Place(c, Sent(b[n].key.filter, p));
      LandsLast(c, t, p, q) && c[q].info == b[n].info
  {
    var c, f := ForChildren(b), b[n].key.filter;
    HandedFirst(b, f, p, n);
    ForChildrenOrder(b, p, f, f);
    var q := Place(c, Sent(f, p));
    assert HandedLast(b, f, p, n) by {
      forall m: nat | n < m < |b|
        ensures HandsDown(b[m], t, p) <== Handed(b[m], f, p)
      {
      }
    }
    LastSent(b, f, p, n);
    ForChildrenUnique(b);
    LookupAt(c, q);
    forall m: nat | q < m < |c|
      ensures !Lands(c[m], t, p)
    {
      if Lands(c[m], t, p) {
        LandsEarlier(b, t, p, n, m);
      }
    }
  }

  lemma {:induction false} LookupAt(c: Blob, q: nat)
    requires UniqueKeys(c) && q < |c|
    ensures Lookup(c, c[q].key) == Info(c[q].info)
  {
    if q < |c| - 1 {
      LookupAt(c[..|c| - 1], q);
    }
  }

  lemma LandsEarlier(b: Blob, t: ThreadType, p: string, n: nat, m: nat)
    requires Decides(b, t, p, n) && m < |ForChildren(b)| && Lands(ForChildren(b)[m], t, p)
    ensures m <= Place(ForChildren(b), Sent(b[n].key.filter, p))
  {
    var c, f, g := ForChildren(b), b[n].key.filter, ForChildren(b)[m].key.filter;
    ForChildrenUnique(b);
    PlaceOf(c, m);
    ForChildrenOrder(b, p, g, f);
    if g != f {
      var first := FirstOf(b, g, p);
      assert Handed(b[first], g, p) && HandsDown(b[first], t, p);
    }
  }

  /** A child inherits permission p as the deciding entry has it. */
  lemma DecidedLookup(b: Blob, t: ThreadType, p: string, n: nat)
    requires Decides(b, t, p, n)
    ensures Lookup(InheritedFrom(b, t), Plain(p)) == Info(b[n].info)
  {
    DecidesLandsLast(b, t, p, n);
    LastLands(ForChildren(b), t, p, Place(ForChildren(b), Sent(b[n].key.filter, p)));
  }

  /** What a child inherits, some entry decides. */
  lemma SomeDecides(b: Blob, t: ThreadType, p: string) returns (n: nat)
    requires Lookup(InheritedFrom(b, t), Plain(p)).Info?
    ensures Decides(b, t, p, n)
  {
    var c := ForChildren(b);
    var q := SomeLandsLast(c, t, p);
    var f := c[q].key.filter;
    ForChildrenUnique(b);
    PlaceOf(c, q);
    ForChildrenOrder(b, p, f, f);
    n := SomeHandedLast(b, f, p);
    forall m: nat | m < |b| && m != n && HandsDown(b[m], t, p) && b[m].key.filter != f
      ensures FirstOf(b, b[m].key.filter, p) < FirstOf(b, f, p)
    {
      HandedLandsEarlier(b, t, p, m, q);
    }
  }

  lemma HandedLandsEarlier(b: Blob, t: ThreadType, p: string, m: nat, q: nat)
    requires m < |b| && HandsDown(b[m], t, p) && LandsLast(ForChildren(b), t, p, q)
    requires b[m].key.filter != ForChildren(b)[q].key.filter
    ensures FirstOf(b, b[m].key.filter, p) < FirstOf(b, ForChildren(b)[q].key.filter, p)
  {
    var c, g, f := ForChildren(b), b[m].key.filter, ForChildren(b)[q].key.filter;
    HandedFirst(b, g, p, m);
    ForChildrenOrder(b, p, g, f);
    ForChildrenUnique(b);
    PlaceOf(c, q);
    var r := Place(c, Sent(g, p));
    assert Lands(c[r], t, p);
  }

  // ----- along the chain -----

  /** The deciding entry grants the permission. */
  ghost predicate DecidedFor(b: Blob, t: ThreadType, p: string) {
    exists n: nat :: Decides(b, t, p, n) && b[n].info.Granted?
  }

  ghost predicate DecidedAgainst(b: Blob, t: ThreadType, p: string) {
    exists n: nat :: Decides(b, t, p, n) && b[n].info.Denied?
  }

  lemma DecidedIff(b: Blob, t: ThreadType, p: string)
    ensures Holds(InheritedFrom(b, t), Plain(p)) <==> DecidedFor(b, t, p)
    ensures Lookup(InheritedFrom(b, t), Plain(p)) == Info(Denied) <==> DecidedAgainst(b, t, p)
  {
    if Lookup(InheritedFrom(b, t), Plain(p)).Info? {
      var n := SomeDecides(b, t, p);
      DecidedLookup(b, t, p, n);
    }
    if DecidedFor(b, t, p) {
      var n: nat :| Decides(b, t, p, n) && b[n].info.Granted?;
      DecidedLookup(b, t, p, n);
    }
    if DecidedAgainst(b, t, p) {
      var n: nat :| Decides(b, t, p, n) && b[n].info.Denied?;
      DecidedLookup(b, t, p, n);
    }
  }

  /** Along every chain, whatever the roles grant and deny: a thread's blob holds a permission exactly if
      its own role grants it and counts, or the deciding entry of its parent's blob grants it. */
  lemma PermissionDecided(chain: seq<Node>, blobs: seq<Blob>, i: nat, p: string)
    requires i < |chain| && Computed(chain, blobs)
    ensures Holds(blobs[i], Plain(p)) <==>
      (Known(blobs, i) && RoleGrants(chain[i].role, Plain(p)))
      || (i > 0 && DecidedFor(blobs[i - 1], chain[i].threadType, p))
  {
    BlobStep(chain, blobs, i, Plain(p));
    if i > 0 {
      DecidedIff(blobs[i - 1], chain[i].threadType, p);
    }
  }

  /** What a role above grants is lost on a thread exactly if the deciding entry there denies it. */
  lemma LostIff(chain: seq<Node>, blobs: seq<Blob>, j: nat, i: nat, f: Filter, p: string)
    requires j < i < |chain| && Computed(chain, blobs) && Known(blobs, j) && GrantFrom(chain, j, i, f, p)
    ensures !Holds(FromParentBlob(chain, blobs, i), Plain(p)) <==> DecidedAgainst(blobs[i - 1], chain[i].threadType, p)
  {
    var k := GrantIsHeld(chain, blobs, j, i, f, p);
    var x := HoldsArrives(blobs[i - 1], chain[i].threadType, k);
    DecidedIff(blobs[i - 1], chain[i].threadType, p);
  }

  // ----- a grant that is lost -----

  function CollidingRole(): Role {
    [RoleEntry(Plain(KNOW_OF), true), RoleEntry(Key(Descendant, NoFilter, "voiced"), true), RoleEntry(Key(Child, NoFilter, "voiced"), false)]
  }

  function CollidingChain(): seq<Node> {
    [Node("1", CommunityRoot, CollidingRole()), Node("2", CommunityOpenSubthread, [RoleEntry(Plain(KNOW_OF), true)])]
  }

  /** A role that grants descendant_voiced and then denies child_voiced: both land on `voiced` in the
      child, the later one decides, and the grant is lost although an ancestor sends it down. */
  lemma CollisionLosesGrant(blobs: seq<Blob>)
    requires Computed(CollidingChain(), blobs)
    ensures Live(CollidingChain(), 1) && Reaches(CollidingChain(), 1, "voiced")
    ensures !PermissionLookup(blobs[1], "voiced")
  {
    var chain, role := CollidingChain(), CollidingRole();
    assert role[0] in role && role[1] in role && chain[1].role[0] in chain[1].role;
    assert RoleGrants(role, Plain(KNOW_OF)) && RoleGrants(chain[1].role, Plain(KNOW_OF));
    assert SentFrom(chain, 0, 1, NoFilter, "voiced") && SentDown(chain, 1, NoFilter, "voiced");
    var b := blobs[0];
    CollidingRootBlob(blobs);
    assert ComputedAt(chain, blobs, 1);
    assert Decides(b, CommunityOpenSubthread, "voiced", 2);
    DecidedLookup(b, CommunityOpenSubthread, "voiced", 2);
    PermissionsBlobHolds(chain[1].role, ForChildren(b), "2", CommunityOpenSubthread, Plain("voiced"));
  }

  /** A role's next new key is appended. */
  lemma WithRoleNext(b: Blob, role: Role, e: RoleEntry, threadID: string)
    requires forall x :: x in WithRole(b, role, threadID) ==> x.key != e.key
    ensures WithRole(b, role + [e], threadID)
         == WithRole(b, role, threadID) + [Entry(e.key, if e.value then Granted(threadID) else Denied)]
  {
    assert (role + [e])[..|role|] == role;
    LookupEntry(WithRole(b, role, threadID), e.key);
  }

  lemma CollidingRootBlob(blobs: seq<Blob>)
    requires Computed(CollidingChain(), blobs)
    ensures blobs[0]
         == [Entry(Plain(KNOW_OF), Granted("1")), Entry(Key(Descendant, NoFilter, "voiced"), Granted("1")), Entry(Key(Child, NoFilter, "voiced"), Denied)]
  {
    var role := CollidingRole();
    assert ComputedAt(CollidingChain(), blobs, 0);
    CollidingRoleBlob(role[0], role[1], role[2], "1");
    assert role == [role[0], role[1], role[2]] && role[0] in role && RoleGrants(role, Plain(KNOW_OF));
    WithRoleHolds([], role, "1", Plain(KNOW_OF));
  }

  lemma CollidingRoleBlob(x: RoleEntry, y: RoleEntry, z: RoleEntry, threadID: string)
    requires x.key != y.key && x.key != z.key && y.key != z.key && x.value && y.value && !z.value
    ensures WithRole([], [x, y, z], threadID) == [Entry(x.key, Granted(threadID)), Entry(y.key, Granted(threadID)), Entry(z.key, Denied)]
  {
    TwoGrants(x, y, threadID);
    WithRoleNext([], [x, y], z, threadID);
    assert [x, y] + [z] == [x, y, z];
  }

  lemma TwoGrants(x: RoleEntry, y: RoleEntry, threadID: string)
    requires x.key != y.key && x.value && y.value
    ensures WithRole([], [x, y], threadID) == [Entry(x.key, Granted(threadID)), Entry(y.key, Granted(threadID))]
  {
    assert [x, y][..1] == [x] && [x][..0] == [];
    var first := [Entry(x.key, Granted(threadID))];
    assert WithRole([], [x], threadID) == first;
    assert first[..0] == [] && Lookup(first, y.key).Missing?;
    assert WithRole([], [x, y], threadID) == Set(first, y.key, Granted(threadID));
  }
}
