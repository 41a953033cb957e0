/** What a user may do in a thread at any depth: the recursion of Permissions over a chain of threads,
    root first, equals a closed form over the roles on the path. */
module PermissionChain {
  import opened Permissions

  /** One thread of the chain, with the user's role there ([] for a non-member). */
  datatype Node = Node(threadID: string, threadType: ThreadType, role: Role)

  /** The blob of thread i is made from its role and from its parent's blob. */
  ghost predicate ComputedAt(chain: seq<Node>, blobs: seq<Blob>, i: nat)
    requires i < |chain| == |blobs|
  {
    blobs[i] == PermissionsBlob(chain[i].role, if i == 0 then [] else ForChildren(blobs[i - 1]), chain[i].threadID, chain[i].threadType)
  }

  /** The blobs along the chain. */
  ghost predicate Computed(chain: seq<Node>, blobs: seq<Blob>) {
    |blobs| == |chain| && forall i: nat {:trigger ComputedAt(chain, blobs, i)} :: i < |chain| ==> ComputedAt(chain, blobs, i)
  }

  function NextBlob(last: Node, above: seq<Blob>): Blob {
    PermissionsBlob(last.role, if |above| == 0 then [] else ForChildren(above[|above| - 1]), last.threadID, last.threadType)
  }

  function Blobs(chain: seq<Node>): (blobs: seq<Blob>)
    ensures |blobs| == |chain|
  {
    if |chain| == 0 then []
    else
      var front := Blobs(chain[..|chain| - 1]);
      front + [NextBlob(chain[|chain| - 1], front)]
  }

  lemma ComputedNext(chain: seq<Node>, front: seq<Blob>, last: Blob, i: nat)
    requires i < |chain| == |front| + 1 && last == NextBlob(chain[|front|], front)
    requires i < |front| ==> ComputedAt(chain[..|front|], front, i)
    ensures ComputedAt(chain, front + [last], i)
  {
  }

  lemma {:induction false} BlobsComputed(chain: seq<Node>, blobs: seq<Blob>, i: nat)
    requires i < |chain| && blobs == Blobs(chain)
    ensures ComputedAt(chain, blobs, i)
  {
    var n := |chain| - 1;
    var front := Blobs(chain[..n]);
    if i < n {
      BlobsComputed(chain[..n], front, i);
    }
    ComputedNext(chain, front, NextBlob(chain[n], front), i);
  }

  lemma {:induction false} SameBlob(chain: seq<Node>, blobs: seq<Blob>, other: seq<Blob>, i: nat)
    requires Computed(chain, blobs) && Computed(chain, other) && i < |chain|
    ensures blobs[i] == other[i]
  {
    if i > 0 {
      SameBlob(chain, blobs, other, i - 1);
    }
    assert ComputedAt(chain, blobs, i) && ComputedAt(chain, other, i);
  }

  /** Every chain has its blobs, and only these. */
  lemma ComputedOnce(chain: seq<Node>, blobs: seq<Blob>)
    ensures Computed(chain, blobs) <==> blobs == Blobs(chain)
  {
    forall i: nat {:trigger ComputedAt(chain, Blobs(chain), i)} | i < |chain|
      ensures ComputedAt(chain, Blobs(chain), i)
    {
      BlobsComputed(chain, Blobs(chain), i);
    }
    if Computed(chain, blobs) {
      forall i | 0 <= i < |chain|
        ensures blobs[i] == Blobs(chain)[i]
      {
        SameBlob(chain, blobs, Blobs(chain), i);
      }
    }
  }

  // ----- the closed form -----

  ghost predicate RoleGrants(role: Role, k: Key) {
    RoleEntry(k, true) in role
  }

  /** The filter lets the permission through at every thread below j down to i. */
  ghost predicate PassesBelow(chain: seq<Node>, f: Filter, j: nat, i: nat)
    requires j <= i < |chain|
  {
    forall k :: j < k <= i ==> Includes(f, chain[k].threadType)
  }

  /** Role j grants the descendant_ form and every filter from there down to i lets it through. */
  ghost predicate SendsTo(chain: seq<Node>, j: nat, i: nat, f: Filter, p: string)
    requires i < |chain|
  {
    j < i && RoleGrants(chain[j].role, Key(Descendant, f, p)) && PassesBelow(chain, f, j, i)
  }

  /** The parent's role grants the child_ form and the filter lets it through at i. */
  ghost predicate GivesTo(chain: seq<Node>, i: nat, f: Filter, p: string)
    requires i < |chain|
  {
    i > 0 && RoleGrants(chain[i - 1].role, Key(Child, f, p)) && Includes(f, chain[i].threadType)
  }

  /** A role is in force where the user knows of the thread: by the role itself, or by the parent's or an
      ancestor's role, in force there. */
  ghost predicate Live(chain: seq<Node>, i: nat)
    requires i < |chain|
    decreases i
  {
    || RoleGrants(chain[i].role, Plain(KNOW_OF))
    || (i > 0 && Live(chain, i - 1) && exists f :: GivesTo(chain, i, f, KNOW_OF))
    || (exists f, j: nat | j < i :: SendsTo(chain, j, i, f, KNOW_OF) && Live(chain, j))
  }

  /** The parent's role, in force, gives its children the permission. */
  ghost predicate FromParent(chain: seq<Node>, i: nat, f: Filter, p: string)
    requires i < |chain|
  {
    i > 0 && Live(chain, i - 1) && GivesTo(chain, i, f, p)
  }

  /** Role j, in force, sends the descendant_ form down to i. */
  ghost predicate SentFrom(chain: seq<Node>, j: nat, i: nat, f: Filter, p: string)
    requires i < |chain|
  {
    SendsTo(chain, j, i, f, p) && Live(chain, j)
  }

  /** Some ancestor's role, in force, sends the descendant_ form with filter f down to i. */
  ghost predicate SentDown(chain: seq<Node>, i: nat, f: Filter, p: string)
    requires i < |chain|
  {
    exists j: nat :: SentFrom(chain, j, i, f, p)
  }

  ghost predicate GivenByParent(chain: seq<Node>, i: nat, p: string)
    requires i < |chain|
  {
    exists f :: FromParent(chain, i, f, p)
  }

  ghost predicate GivenByAncestor(chain: seq<Node>, i: nat, p: string)
    requires i < |chain|
  {
    exists f :: SentDown(chain, i, f, p)
  }

  /** The own role grants it, the parent's child_ form does, or an ancestor's descendant_ form does. */
  ghost predicate Reaches(chain: seq<Node>, i: nat, p: string)
    requires i < |chain|
  {
    RoleGrants(chain[i].role, Plain(p)) || GivenByParent(chain, i, p) || GivenByAncestor(chain, i, p)
  }

  /** In force means that KNOW_OF reaches the thread. */
  lemma LiveReaches(chain: seq<Node>, i: nat)
    requires i < |chain|
    ensures Live(chain, i) <==> Reaches(chain, i, KNOW_OF)
  {
    forall f | i > 0 && Live(chain, i - 1) && GivesTo(chain, i, f, KNOW_OF)
      ensures GivenByParent(chain, i, KNOW_OF)
    {
      assert FromParent(chain, i, f, KNOW_OF);
    }
    forall f, j: nat | j < i && SendsTo(chain, j, i, f, KNOW_OF) && Live(chain, j)
      ensures GivenByAncestor(chain, i, KNOW_OF)
    {
      assert SentFrom(chain, j, i, f, KNOW_OF) && SentDown(chain, i, f, KNOW_OF);
    }
  }

  // ----- when the closed form is exact -----

  /** Of one permission, what a role propagates is granted, not denied. */
  ghost predicate CleanRole(role: Role, p: string) {
    forall e :: e in role && !e.key.propagation.NotPropagated? && e.key.permission == p ==> e.value
  }

  ghost predicate CleanChain(chain: seq<Node>, p: string) {
    forall i :: 0 <= i < |chain| ==> CleanRole(chain[i].role, p)
  }

  // ----- folds, looked up -----

  /** What a blob b leaves a child of type t to inherit. */
  function InheritedFrom(b: Blob, t: ThreadType): Blob {
    Inherited(ForChildren(b), t)
  }

  lemma {:induction false} ForChildrenPropagated(b: Blob, k: Key)
    requires !k.propagation.NotPropagated?
    ensures Lookup(ForChildren(b), k) == if k.propagation.Descendant? then Lookup(b, k) else Missing
  {
    if |b| > 0 {
      var front, e := ForChildren(b[..|b| - 1]), b[|b| - 1];
      ForChildrenPropagated(b[..|b| - 1], k);
      if !e.key.propagation.NotPropagated? {
        var kept := if e.key.propagation.Descendant? then Set(front, e.key, e.info) else front;
        LookupSet(front, e.key, e.info, k);
        LookupSet(kept, Key(NotPropagated, e.key.filter, e.key.permission), e.info, k);
      }
    }
  }

  lemma {:induction false} InheritedPropagated(c: Blob, t: ThreadType, k: Key)
    requires !k.propagation.NotPropagated?
    ensures Lookup(Inherited(c, t), k) == if Includes(k.filter, t) then Lookup(c, k) else Missing
  {
    if |c| > 0 {
      var front, e := Inherited(c[..|c| - 1], t), c[|c| - 1];
      InheritedPropagated(c[..|c| - 1], t, k);
      LookupSet(front, Target(e.key), e.info, k);
    }
  }

  /** A propagated key is inherited as the parent holds it, in descendant_ form; a child_ form is not. */
  lemma PropagatedInherited(b: Blob, t: ThreadType, k: Key)
    requires !k.propagation.NotPropagated?
    ensures Lookup(InheritedFrom(b, t), k) == if k.propagation.Descendant? && Includes(k.filter, t) then Lookup(b, k) else Missing
  {
    ForChildrenPropagated(b, k);
    InheritedPropagated(ForChildren(b), t, k);
  }

  /** An entry in a child's blob comes from one of the two propagated forms in the parent's. */
  lemma {:induction false} SentOrigin(b: Blob, f: Filter, p: string) returns (propagation: Propagation)
    requires Lookup(ForChildren(b), Key(NotPropagated, f, p)).Info?
    ensures propagation in {Child, Descendant}
    ensures Lookup(ForChildren(b), Key(NotPropagated, f, p)) == Lookup(b, Key(propagation, f, p))
  {
    var front, e := ForChildren(b[..|b| - 1]), b[|b| - 1];
    if e.key.propagation.NotPropagated? {
      propagation := SentOrigin(b[..|b| - 1], f, p);
    } else {
      var kept := if e.key.propagation.Descendant? then Set(front, e.key, e.info) else front;
      LookupSet(front, e.key, e.info, Key(NotPropagated, f, p));
      LookupSet(kept, Key(NotPropagated, e.key.filter, e.key.permission), e.info, Key(NotPropagated, f, p));
      if e.key.filter == f && e.key.permission == p {
        propagation := e.key.propagation;
      } else {
        propagation := SentOrigin(b[..|b| - 1], f, p);
      }
    }
  }

  lemma {:induction false} SentPresent(b: Blob, propagation: Propagation, f: Filter, p: string)
    requires !propagation.NotPropagated? && Lookup(b, Key(propagation, f, p)).Info?
    ensures Lookup(ForChildren(b), Key(NotPropagated, f, p)).Info?
  {
    var front, e := ForChildren(b[..|b| - 1]), b[|b| - 1];
    if e.key != Key(propagation, f, p) {
      SentPresent(b[..|b| - 1], propagation, f, p);
    }
    if !e.key.propagation.NotPropagated? {
      var kept := if e.key.propagation.Descendant? then Set(front, e.key, e.info) else front;
      LookupSet(front, e.key, e.info, Key(NotPropagated, f, p));
      LookupSet(kept, Key(NotPropagated, e.key.filter, e.key.permission), e.info, Key(NotPropagated, f, p));
    }
  }

  /** An inherited entry that is not propagated is plain, and comes from one filter that lets it through. */
  lemma {:induction false} LandedOrigin(c: Blob, t: ThreadType, k: Key) returns (f: Filter)
    requires k.propagation.NotPropagated? && Lookup(Inherited(c, t), k).Info?
    ensures k == Plain(k.permission) && Includes(f, t)
    ensures Lookup(Inherited(c, t), k) == Lookup(c, Key(NotPropagated, f, k.permission))
  {
    var front, e := Inherited(c[..|c| - 1], t), c[|c| - 1];
    LookupSet(front, Target(e.key), e.info, k);
    if Includes(e.key.filter, t) && Target(e.key) == k {
      f := e.key.filter;
    } else {
      f := LandedOrigin(c[..|c| - 1], t, k);
    }
  }

  lemma {:induction false} LandedPresent(c: Blob, t: ThreadType, f: Filter, p: string)
    requires Lookup(c, Key(NotPropagated, f, p)).Info? && Includes(f, t)
    ensures Lookup(Inherited(c, t), Plain(p)).Info?
  {
    var front, e := Inherited(c[..|c| - 1], t), c[|c| - 1];
    LookupSet(front, Target(e.key), e.info, Plain(p));
    if e.key != Key(NotPropagated, f, p) {
      LandedPresent(c[..|c| - 1], t, f, p);
    }
  }

  /** Every inherited entry is one of the parent's propagated entries that the filter lets through. */
  lemma InheritedOrigin(b: Blob, t: ThreadType, k: Key) returns (x: Key)
    requires Lookup(InheritedFrom(b, t), k).Info?
    ensures Lookup(InheritedFrom(b, t), k) == Lookup(b, x) && Includes(x.filter, t)
    ensures (x.propagation.Descendant? && k == x) || (x.propagation in {Child, Descendant} && k == Plain(x.permission))
  {
    if k.propagation.NotPropagated? {
      var f := LandedOrigin(ForChildren(b), t, k);
      var propagation := SentOrigin(b, f, k.permission);
      x := Key(propagation, f, k.permission);
    } else {
      PropagatedInherited(b, t, k);
      x := k;
    }
  }

  /** A role adds its own grants and never takes an inherited one away. */
  lemma {:induction false} WithRoleHolds(b: Blob, role: Role, threadID: string, k: Key)
    ensures Holds(WithRole(b, role, threadID), k) <==> Holds(b, k) || RoleGrants(role, k)
    ensures Holds(WithRole(b, role, threadID), k) ==>
      Lookup(WithRole(b, role, threadID), k) == if RoleGrants(role, k) then Info(Granted(threadID)) else Lookup(b, k)
  {
    if |role| > 0 {
      var front, e := role[..|role| - 1], role[|role| - 1];
      WithRoleHolds(b, front, threadID, k);
      assert role == front + [e];
      LookupSet(WithRole(b, front, threadID), e.key, if e.value then Granted(threadID) else Denied, k);
    }
  }

  // ----- blobs along the chain -----

  function FromParentBlob(chain: seq<Node>, blobs: seq<Blob>, i: nat): Blob
    requires i < |chain| == |blobs|
  {
    if i == 0 then [] else InheritedFrom(blobs[i - 1], chain[i].threadType)
  }

  // ----- propagated keys, for every role -----

  /** The user knows of thread i: the role there counts. */
  ghost predicate Known(blobs: seq<Blob>, i: nat)
    requires i < |blobs|
  {
    Holds(blobs[i], Plain(KNOW_OF))
  }

  /** Role j counts and grants the descendant_ form, and every filter below it lets it through. */
  ghost predicate HeldFrom(chain: seq<Node>, blobs: seq<Blob>, j: nat, i: nat, f: Filter, p: string)
    requires i < |chain| == |blobs|
  {
    j <= i && Known(blobs, j) && RoleGrants(chain[j].role, Key(Descendant, f, p)) && PassesBelow(chain, f, j, i)
  }

  ghost predicate DescendantHeld(chain: seq<Node>, blobs: seq<Blob>, i: nat, f: Filter, p: string)
    requires i < |chain| == |blobs|
  {
    exists j: nat :: HeldFrom(chain, blobs, j, i, f, p)
  }

  ghost predicate ChildHeld(chain: seq<Node>, blobs: seq<Blob>, i: nat, f: Filter, p: string)
    requires i < |chain| == |blobs|
  {
    Known(blobs, i) && RoleGrants(chain[i].role, Key(Child, f, p))
  }

  lemma PassesOneMore(chain: seq<Node>, f: Filter, j: nat, i: nat)
    requires j < i < |chain|
    ensures PassesBelow(chain, f, j, i) <==> PassesBelow(chain, f, j, i - 1) && Includes(f, chain[i].threadType)
  {
  }

  lemma HeldFromStep(chain: seq<Node>, blobs: seq<Blob>, j: nat, i: nat, f: Filter, p: string)
    requires 0 < i < |chain| == |blobs|
    ensures HeldFrom(chain, blobs, j, i, f, p) <==>
      (j == i && Known(blobs, i) && RoleGrants(chain[i].role, Key(Descendant, f, p)))
      || (HeldFrom(chain, blobs, j, i - 1, f, p) && Includes(f, chain[i].threadType))
  {
    if j < i {
      PassesOneMore(chain, f, j, i);
    }
  }

  /** What a thread holds in descendant_ form, its parent held or its own role adds. */
  lemma DescendantHeldStep(chain: seq<Node>, blobs: seq<Blob>, i: nat, f: Filter, p: string)
    requires i < |chain| == |blobs|
    ensures DescendantHeld(chain, blobs, i, f, p) <==>
      (Known(blobs, i) && RoleGrants(chain[i].role, Key(Descendant, f, p)))
      || (i > 0 && DescendantHeld(chain, blobs, i - 1, f, p) && Includes(f, chain[i].threadType))
  {
    if Known(blobs, i) && RoleGrants(chain[i].role, Key(Descendant, f, p)) {
      assert HeldFrom(chain, blobs, i, i, f, p);
    }
    if i > 0 && DescendantHeld(chain, blobs, i - 1, f, p) && Includes(f, chain[i].threadType) {
      var j: nat :| HeldFrom(chain, blobs, j, i - 1, f, p);
      HeldFromStep(chain, blobs, j, i, f, p);
    }
    if i > 0 && DescendantHeld(chain, blobs, i, f, p) {
      var j: nat :| HeldFrom(chain, blobs, j, i, f, p);
      HeldFromStep(chain, blobs, j, i, f, p);
    }
  }

  /** A thread's blob holds what it inherits, plus the role's grants if KNOW_OF is among either. */
  lemma PermissionsBlobHolds(role: Role, fromParent: Blob, threadID: string, t: ThreadType, k: Key)
    ensures var inherited := Inherited(fromParent, t);
      var known := Holds(inherited, Plain(KNOW_OF)) || RoleGrants(role, Plain(KNOW_OF));
      var b := PermissionsBlob(role, fromParent, threadID, t);
      && (Holds(b, k) <==> Holds(inherited, k) || (known && RoleGrants(role, k)))
      && (Holds(b, Plain(KNOW_OF)) <==> known)
      && (Holds(b, k) ==> Lookup(b, k) == if known && RoleGrants(role, k) then Info(Granted(threadID)) else Lookup(inherited, k))
  {
    WithRoleHolds(Inherited(fromParent, t), role, threadID, k);
    WithRoleHolds(Inherited(fromParent, t), role, threadID, Plain(KNOW_OF));
  }

  lemma BlobStep(chain: seq<Node>, blobs: seq<Blob>, i: nat, k: Key)
    requires i < |chain| && Computed(chain, blobs)
    ensures Holds(blobs[i], k) <==>
      Holds(FromParentBlob(chain, blobs, i), k) || (Known(blobs, i) && RoleGrants(chain[i].role, k))
    ensures Known(blobs, i) <==> Holds(FromParentBlob(chain, blobs, i), Plain(KNOW_OF)) || RoleGrants(chain[i].role, Plain(KNOW_OF))
    ensures Holds(blobs[i], k) ==> (
      var own := Known(blobs, i) && RoleGrants(chain[i].role, k);
      Lookup(blobs[i], k) == if own then Info(Granted(chain[i].threadID)) else Lookup(FromParentBlob(chain, blobs, i), k))
  {
    assert ComputedAt(chain, blobs, i);
    PermissionsBlobHolds(chain[i].role, if i == 0 then [] else ForChildren(blobs[i - 1]), chain[i].threadID, chain[i].threadType, k);
  }

  /** Along every chain, whatever the roles grant or deny: a thread holds a descendant_ form exactly if a
      role that counts, at or above it, grants it through every filter on the way, and a child_ form
      exactly if its own role grants it and counts. */
  lemma {:induction false} PropagatedClosedForm(chain: seq<Node>, blobs: seq<Blob>, i: nat, f: Filter, p: string)
    requires i < |chain| && Computed(chain, blobs)
    ensures Holds(blobs[i], Key(Descendant, f, p)) <==> DescendantHeld(chain, blobs, i, f, p)
    ensures Holds(blobs[i], Key(Child, f, p)) <==> ChildHeld(chain, blobs, i, f, p)
  {
    BlobStep(chain, blobs, i, Key(Descendant, f, p));
    BlobStep(chain, blobs, i, Key(Child, f, p));
    DescendantHeldStep(chain, blobs, i, f, p);
    if i > 0 {
      PropagatedClosedForm(chain, blobs, i - 1, f, p);
      PropagatedInherited(blobs[i - 1], chain[i].threadType, Key(Descendant, f, p));
      PropagatedInherited(blobs[i - 1], chain[i].threadType, Key(Child, f, p));
    }
  }

  // ----- plain permissions: what is held was granted -----

  /** Role j gives its descendants at i the permission, or its children there. */
  ghost predicate GrantFrom(chain: seq<Node>, j: nat, i: nat, f: Filter, p: string)
    requires i < |chain|
  {
    SendsTo(chain, j, i, f, p) || (j + 1 == i && GivesTo(chain, i, f, p))
  }

  /** Whatever the roles, an inherited permission was granted by a role that counts. */
  lemma InheritedWasGranted(chain: seq<Node>, blobs: seq<Blob>, i: nat, p: string) returns (j: nat, f: Filter)
    requires i < |chain| && Computed(chain, blobs) && Holds(FromParentBlob(chain, blobs, i), Plain(p))
    ensures j < i && Known(blobs, j) && GrantFrom(chain, j, i, f, p)
  {
    var x := InheritedOrigin(blobs[i - 1], chain[i].threadType, Plain(p));
    f := x.filter;
    assert x == Key(x.propagation, f, p);
    PropagatedClosedForm(chain, blobs, i - 1, f, p);
    if x.propagation.Child? {
      j := i - 1;
    } else {
      j :| HeldFrom(chain, blobs, j, i - 1, f, p);
      PassesOneMore(chain, f, j, i);
    }
  }

  lemma GrantReachesBelow(chain: seq<Node>, j: nat, i: nat, f: Filter, p: string)
    requires i < |chain| && GrantFrom(chain, j, i, f, p) && Live(chain, j)
    ensures GivenByParent(chain, i, p) || GivenByAncestor(chain, i, p)
  {
    if SendsTo(chain, j, i, f, p) {
      assert SentFrom(chain, j, i, f, p) && SentDown(chain, i, f, p);
    } else {
      assert FromParent(chain, i, f, p);
    }
  }

  lemma {:induction false} InheritedReaches(chain: seq<Node>, blobs: seq<Blob>, i: nat, p: string)
    requires i < |chain| && Computed(chain, blobs) && Holds(FromParentBlob(chain, blobs, i), Plain(p))
    ensures GivenByParent(chain, i, p) || GivenByAncestor(chain, i, p)
    decreases i, 0
  {
    var j, f := InheritedWasGranted(chain, blobs, i, p);
    KnownIsLive(chain, blobs, j);
    GrantReachesBelow(chain, j, i, f, p);
  }

  lemma {:induction false} KnownIsLive(chain: seq<Node>, blobs: seq<Blob>, i: nat)
    requires i < |chain| && Computed(chain, blobs) && Known(blobs, i)
    ensures Live(chain, i)
    decreases i, 1
  {
    BlobStep(chain, blobs, i, Plain(KNOW_OF));
    if Holds(FromParentBlob(chain, blobs, i), Plain(KNOW_OF)) {
      InheritedReaches(chain, blobs, i, KNOW_OF);
    }
    LiveReaches(chain, i);
  }

  /** Along every chain, whatever the roles deny, nobody holds a permission that no role in force gives. */
  lemma PermissionSound(chain: seq<Node>, blobs: seq<Blob>, i: nat, p: string)
    requires i < |chain| && Computed(chain, blobs) && PermissionLookup(blobs[i], p)
    ensures Live(chain, i) && Reaches(chain, i, p)
  {
    KnownIsLive(chain, blobs, i);
    BlobStep(chain, blobs, i, Plain(p));
    if Holds(FromParentBlob(chain, blobs, i), Plain(p)) {
      InheritedReaches(chain, blobs, i, p);
    }
  }

  // ----- plain permissions: what is granted is held, unless it is denied on the way -----

  lemma {:induction false} WithRoleUndenied(b: Blob, role: Role, threadID: string, k: Key)
    requires !k.propagation.NotPropagated? && CleanRole(role, k.permission) && Lookup(b, k) != Info(Denied)
    ensures Lookup(WithRole(b, role, threadID), k) != Info(Denied)
  {
    if |role| > 0 {
      var front, e := role[..|role| - 1], role[|role| - 1];
      assert role == front + [e] && e in role;
      WithRoleUndenied(b, front, threadID, k);
      LookupSet(WithRole(b, front, threadID), e.key, if e.value then Granted(threadID) else Denied, k);
    }
  }

  lemma PermissionsBlobUndenied(role: Role, parent: Blob, threadID: string, t: ThreadType, k: Key)
    requires !k.propagation.NotPropagated? && CleanRole(role, k.permission) && Lookup(parent, k) != Info(Denied)
    ensures Lookup(PermissionsBlob(role, ForChildren(parent), threadID, t), k) != Info(Denied)
  {
    PropagatedInherited(parent, t, k);
    WithRoleUndenied(InheritedFrom(parent, t), role, threadID, k);
  }

  /** Where no role denies a propagated form of a permission, no blob does. */
  lemma {:induction false} BlobUndenied(chain: seq<Node>, blobs: seq<Blob>, i: nat, k: Key)
    requires i < |chain| && Computed(chain, blobs) && CleanChain(chain, k.permission) && !k.propagation.NotPropagated?
    ensures Lookup(blobs[i], k) != Info(Denied)
  {
    assert ComputedAt(chain, blobs, i);
    if i > 0 {
      BlobUndenied(chain, blobs, i - 1, k);
    }
    PermissionsBlobUndenied(chain[i].role, if i == 0 then [] else blobs[i - 1], chain[i].threadID, chain[i].threadType, k);
  }

  /** What a role that counts grants is held by the parent. */
  lemma GrantIsHeld(chain: seq<Node>, blobs: seq<Blob>, j: nat, i: nat, f: Filter, p: string) returns (k: Key)
    requires j < i < |chain| && Computed(chain, blobs) && Known(blobs, j) && GrantFrom(chain, j, i, f, p)
    ensures k.propagation in {Child, Descendant} && k.permission == p && Holds(blobs[i - 1], k) && Includes(k.filter, chain[i].threadType)
  {
    PropagatedClosedForm(chain, blobs, i - 1, f, p);
    if SendsTo(chain, j, i, f, p) {
      PassesOneMore(chain, f, j, i);
      assert HeldFrom(chain, blobs, j, i - 1, f, p);
      k := Key(Descendant, f, p);
    } else {
      k := Key(Child, f, p);
    }
  }

  /** A propagated permission that passes the filter is inherited in plain form, as one of the parent's
      propagated keys has it. */
  lemma HoldsArrives(b: Blob, t: ThreadType, k: Key) returns (x: Key)
    requires k.propagation in {Child, Descendant} && Holds(b, k) && Includes(k.filter, t)
    ensures x.propagation in {Child, Descendant} && x.permission == k.permission
    ensures Lookup(b, x).Info? && Lookup(InheritedFrom(b, t), Plain(k.permission)) == Lookup(b, x)
  {
    SentPresent(b, k.propagation, k.filter, k.permission);
    LandedPresent(ForChildren(b), t, k.filter, k.permission);
    x := InheritedOrigin(b, t, Plain(k.permission));
  }

  lemma GivenFrom(chain: seq<Node>, i: nat, p: string) returns (j: nat, f: Filter)
    requires i < |chain| && (GivenByParent(chain, i, p) || GivenByAncestor(chain, i, p))
    ensures j < i && Live(chain, j) && GrantFrom(chain, j, i, f, p)
  {
    if GivenByParent(chain, i, p) {
      f :| FromParent(chain, i, f, p);
      j := i - 1;
    } else {
      f :| SentDown(chain, i, f, p);
      j :| SentFrom(chain, j, i, f, p);
    }
  }

  lemma {:induction false} GivenIsInherited(chain: seq<Node>, blobs: seq<Blob>, i: nat, p: string)
    requires i < |chain| && Computed(chain, blobs) && CleanChain(chain, p) && CleanChain(chain, KNOW_OF)
    requires GivenByParent(chain, i, p) || GivenByAncestor(chain, i, p)
    ensures Holds(FromParentBlob(chain, blobs, i), Plain(p))
    decreases i, 0
  {
    var j, f := GivenFrom(chain, i, p);
    LiveIsKnown(chain, blobs, j);
    var k := GrantIsHeld(chain, blobs, j, i, f, p);
    var x := HoldsArrives(blobs[i - 1], chain[i].threadType, k);
    BlobUndenied(chain, blobs, i - 1, x);
  }

  lemma {:induction false} LiveIsKnown(chain: seq<Node>, blobs: seq<Blob>, i: nat)
    requires i < |chain| && Computed(chain, blobs) && CleanChain(chain, KNOW_OF) && Live(chain, i)
    ensures Known(blobs, i)
    decreases i, 1
  {
    LiveReaches(chain, i);
    BlobStep(chain, blobs, i, Plain(KNOW_OF));
    if GivenByParent(chain, i, KNOW_OF) || GivenByAncestor(chain, i, KNOW_OF) {
      GivenIsInherited(chain, blobs, i, KNOW_OF);
    }
  }

  /** Where no role denies a propagated form of it or of KNOW_OF, a thread at any depth holds a permission
      exactly when the user knows of the thread and the own role, the parent's child_ form or an ancestor's
      descendant_ form gives it, each from a role in force and through every filter on the way. */
  lemma PermissionClosedForm(chain: seq<Node>, blobs: seq<Blob>, i: nat, p: string)
    requires i < |chain| && Computed(chain, blobs) && CleanChain(chain, p) && CleanChain(chain, KNOW_OF)
    ensures PermissionLookup(blobs[i], p) <==> Live(chain, i) && Reaches(chain, i, p)
  {
    if PermissionLookup(blobs[i], p) {
      PermissionSound(chain, blobs, i, p);
    }
    if Live(chain, i) && Reaches(chain, i, p) {
      LiveIsKnown(chain, blobs, i);
      BlobStep(chain, blobs, i, Plain(p));
      if GivenByParent(chain, i, p) || GivenByAncestor(chain, i, p) {
        GivenIsInherited(chain, blobs, i, p);
      }
    }
  }

  // ----- sources -----

  ghost predicate JustifiedBy(chain: seq<Node>, j: nat, i: nat, k: Key, source: string)
    requires i < |chain|
  {
    j <= i && source == chain[j].threadID && Live(chain, j) && GrantReaches(chain, j, i, k)
  }

  /** The thread `source` is on the path and its role, in force, granted a form of k that reaches i. */
  ghost predicate Justified(chain: seq<Node>, i: nat, k: Key, source: string)
    requires i < |chain|
  {
    exists j: nat :: JustifiedBy(chain, j, i, k, source)
  }

  /** Role j grants k itself at j, or the descendant_ form all the way, or the child_ form one step. */
  ghost predicate GrantReaches(chain: seq<Node>, j: nat, i: nat, k: Key)
    requires j <= i < |chain|
  {
    || (j == i && RoleGrants(chain[j].role, k))
    || (j < i && !k.propagation.Child? && (k.propagation.Descendant? || k.filter.NoFilter?)
        && exists f :: RoleGrants(chain[j].role, Key(Descendant, f, k.permission)) && PassesBelow(chain, f, j, i)
             && (k.propagation.Descendant? ==> f == k.filter))
    || (j + 1 == i && k == Plain(k.permission)
        && exists f :: RoleGrants(chain[j].role, Key(Child, f, k.permission)) && Includes(f, chain[i].threadType))
  }

  /** What justified a parent's propagated entry justifies the child's inherited one. */
  lemma JustifiedBelow(chain: seq<Node>, i: nat, x: Key, k: Key, source: string)
    requires 0 < i < |chain| && Justified(chain, i - 1, x, source) && Includes(x.filter, chain[i].threadType)
    requires (x.propagation.Descendant? && k == x) || (!x.propagation.NotPropagated? && k == Plain(x.permission))
    ensures Justified(chain, i, k, source)
  {
    var j: nat :| JustifiedBy(chain, j, i - 1, x, source);
    PassesOneMore(chain, x.filter, j, i);
    if x.propagation.Child? {
      assert j == i - 1 && RoleGrants(chain[j].role, Key(Child, x.filter, k.permission));
      assert JustifiedBy(chain, j, i, k, source);
    } else {
      assert RoleGrants(chain[j].role, Key(Descendant, x.filter, k.permission)) && PassesBelow(chain, x.filter, j, i - 1);
      assert JustifiedBy(chain, j, i, k, source);
    }
  }

  ghost predicate SourcesJustified(chain: seq<Node>, i: nat, b: Blob)
    requires i < |chain|
  {
    forall k {:trigger Holds(b, k)} :: Holds(b, k) ==> Justified(chain, i, k, Lookup(b, k).info.source)
  }

  ghost predicate OwnGrant(chain: seq<Node>, i: nat, k: Key, found: Found)
    requires i < |chain|
  {
    Live(chain, i) && RoleGrants(chain[i].role, k) && found == Info(Granted(chain[i].threadID))
  }

  lemma SourceStep(chain: seq<Node>, i: nat, k: Key, found: Found, parent: Blob)
    requires i < |chain| && found.Info? && found.info.Granted?
    requires OwnGrant(chain, i, k, found)
          || (i > 0 && SourcesJustified(chain, i - 1, parent)
              && found == Lookup(InheritedFrom(parent, chain[i].threadType), k))
    ensures Justified(chain, i, k, found.info.source)
  {
    if OwnGrant(chain, i, k, found) {
      assert JustifiedBy(chain, i, i, k, chain[i].threadID);
    } else {
      var x := InheritedOrigin(parent, chain[i].threadType, k);
      assert Holds(parent, x);
      JustifiedBelow(chain, i, x, k, found.info.source);
    }
  }

  ghost predicate GrantOrigin(chain: seq<Node>, i: nat, k: Key, found: Found, parent: Blob)
    requires i < |chain|
  {
    OwnGrant(chain, i, k, found) || (i > 0 && found == Lookup(InheritedFrom(parent, chain[i].threadType), k))
  }

  /** Each granted entry is the role's own, or the one the parent's blob hands down. */
  ghost predicate MadeFrom(chain: seq<Node>, i: nat, b: Blob, parent: Blob)
    requires i < |chain|
  {
    forall k {:trigger Holds(b, k)} :: Holds(b, k) ==> GrantOrigin(chain, i, k, Lookup(b, k), parent)
  }

  lemma BlobMadeFrom(chain: seq<Node>, blobs: seq<Blob>, i: nat)
    requires i < |chain| && Computed(chain, blobs)
    ensures MadeFrom(chain, i, blobs[i], if i > 0 then blobs[i - 1] else [])
  {
    var b, parent := blobs[i], if i > 0 then blobs[i - 1] else [];
    forall k {:trigger Holds(b, k)} | Holds(b, k)
      ensures GrantOrigin(chain, i, k, Lookup(b, k), parent)
    {
      BlobStep(chain, blobs, i, k);
      if Known(blobs, i) {
        KnownIsLive(chain, blobs, i);
      }
    }
  }

  lemma SourcesStep(chain: seq<Node>, i: nat, b: Blob, parent: Blob)
    requires i < |chain| && MadeFrom(chain, i, b, parent)
    requires i > 0 ==> SourcesJustified(chain, i - 1, parent)
    ensures SourcesJustified(chain, i, b)
  {
    forall k {:trigger Holds(b, k)} | Holds(b, k)
      ensures Justified(chain, i, k, Lookup(b, k).info.source)
    {
      SourceStep(chain, i, k, Lookup(b, k), parent);
    }
  }

  /** Along every chain, every granted entry's source is a thread on the path whose role granted it. */
  lemma {:induction false} SourceOnPath(chain: seq<Node>, blobs: seq<Blob>, i: nat)
    requires i < |chain| && Computed(chain, blobs)
    ensures SourcesJustified(chain, i, blobs[i])
  {
    BlobMadeFrom(chain, blobs, i);
    if i == 0 {
      SourcesStep(chain, 0, blobs[0], []);
    } else {
      SourceOnPath(chain, blobs, i - 1);
      SourcesStep(chain, i, blobs[i], blobs[i - 1]);
    }
  }

  // ----- getAllThreadPermissions -----

  datatype ThreadPermission = ThreadPermission(value: bool, source: Info)

  /** `getAllThreadPermissions`, over the enumeration of permission names. */
  method GetAllThreadPermissions(b: Blob, threadID: string) returns (result: map<string, ThreadPermission>)
    ensures forall p :: p in result <==> p in PERMISSIONS
    ensures forall p :: p in result ==>
      result[p] == if PermissionLookup(b, p) then ThreadPermission(true, Lookup(b, Plain(p)).info) else ThreadPermission(false, Denied)
  {
    result := map[];
    for i := 0 to |PERMISSIONS|
      invariant forall p :: p in result <==> p in PERMISSIONS[..i]
      invariant forall p :: p in result ==>
        result[p] == if PermissionLookup(b, p) then ThreadPermission(true, Lookup(b, Plain(p)).info) else ThreadPermission(false, Denied)
    {
      var p := PERMISSIONS[i];
      var permission := PermissionLookup(b, p);
      var source := Denied;
      if permission {
        var found := Lookup(b, Plain(p));
        source := if found.Info? then found.info else Granted(threadID);
      }
      result := result[p := ThreadPermission(permission, source)];
    }
    assert PERMISSIONS[..|PERMISSIONS|] == PERMISSIONS;
  }
}
