/** Thread permissions: permission strings (lib/permissions/prefixes.js) and their propagation from parent
    to child (lib/permissions/thread-permissions.js). */
module Permissions {
  import opened Collections

  datatype Propagation = NotPropagated | Descendant | Child
  datatype Filter = NoFilter | Open | TopLevel | OpenTopLevel

  /** A permission string, parsed: `child_open_voiced` is Key(Child, Open, "voiced"). */
  datatype Key = Key(propagation: Propagation, filter: Filter, permission: string)

  const KNOW_OF := "know_of"

  const PERMISSIONS: seq<string> := [
    "know_of", "membership", "visible", "voiced", "edit_entries", "edit_thread", "edit_thread_description",
    "edit_thread_color", "delete_thread", "create_subthreads", "create_sidebars", "join_thread",
    "edit_permissions", "add_members", "remove_members", "change_role", "leave_thread"]

  // ----- permission strings -----

  function PropagationText(p: Propagation): string {
    match p case NotPropagated => "" case Descendant => "descendant_" case Child => "child_"
  }

  function FilterText(f: Filter): string {
    match f case NoFilter => "" case Open => "open_" case TopLevel => "toplevel_" case OpenTopLevel => "opentoplevel_"
  }

  function Print(k: Key): string {
    PropagationText(k.propagation) + (FilterText(k.filter) + k.permission)
  }

  /** The first of the given prefixes that the string starts with, tried in order. */
  method StripPropagation(s: string) returns (p: Propagation, rest: string)
    ensures s == PropagationText(p) + rest
    ensures PropagationIs(p, s)
  {
    p, rest := NotPropagated, s;
    var prefixes := [Descendant, Child];
    for i := 0 to 2
      invariant p == NotPropagated && rest == s
      invariant forall j :: 0 <= j < i ==> !StartsWith(s, PropagationText(prefixes[j]))
    {
      var prefix := PropagationText(prefixes[i]);
      if StartsWith(s, prefix) {
        assert s[0] == prefix[0];
        p, rest := prefixes[i], s[|prefix|..];
        return;
      }
    }
    assert !StartsWith(s, PropagationText(prefixes[0])) && !StartsWith(s, PropagationText(prefixes[1]));
  }

  method StripFilter(s: string) returns (f: Filter, rest: string)
    ensures s == FilterText(f) + rest
    ensures FilterIs(f, s)
  {
    f, rest := NoFilter, s;
    var prefixes := [Open, TopLevel, OpenTopLevel];
    for i := 0 to 3
      invariant f == NoFilter && rest == s
      invariant forall j :: 0 <= j < i ==> !StartsWith(s, FilterText(prefixes[j]))
    {
      var prefix := FilterText(prefixes[i]);
      if StartsWith(s, prefix) {
        assert s[0] == prefix[0] && s[4] == prefix[4];
        f, rest := prefixes[i], s[|prefix|..];
        return;
      }
    }
    assert forall j :: 0 <= j < 3 ==> !StartsWith(s, FilterText(prefixes[j]));
    assert prefixes[0] == Open && prefixes[1] == TopLevel && prefixes[2] == OpenTopLevel;
  }

  /** No permission name starts with a propagation or filter prefix. */
  ghost predicate Unprefixed(s: string) {
    && !StartsWith(s, "descendant_") && !StartsWith(s, "child_")
    && !StartsWith(s, "open_") && !StartsWith(s, "toplevel_") && !StartsWith(s, "opentoplevel_")
  }

  /** `parseThreadPermissionString`: succeeds exactly on printed keys, and inverts printing. */
  method ParseThreadPermissionString(s: string) returns (r: Outcome<Key>)
    ensures r.Ok? ==> Print(r.value) == s && r.value.permission in PERMISSIONS
    ensures forall k: Key {:trigger Print(k)} :: Print(k) == s && k.permission in PERMISSIONS ==> r == Ok(k)
  {
    var propagation, rest := StripPropagation(s);
    var filter, permission := StripFilter(rest);
    OnlyReading(s, propagation, rest, filter, permission);
    if permission in PERMISSIONS {
      r := Ok(Key(propagation, filter, permission));
    } else {
      r := Throw;
    }
  }

  /** A shape that every permission name has and no prefix allows. */
  ghost predicate NameShape(p: string) {
    |p| > 5 && p[0] != 'o' && p[0] != 't' && (p[0] == 'd' ==> p[2] == 'l') && (p[0] == 'c' ==> p[1] == 'r' || p[2] == 'a')
  }

  lemma PermissionShape(i: nat)
    requires i < |PERMISSIONS|
    ensures NameShape(PERMISSIONS[i])
  {
  }

  /** A string that differs from a prefix within its length does not start with it. */
  lemma Differs(p: string, prefix: string, i: nat)
    requires i < |p| && i < |prefix| && p[i] != prefix[i]
    ensures !StartsWith(p, prefix)
  {
  }

  lemma NoPropagationPrefix(p: string)
    requires NameShape(p)
    ensures !StartsWith(p, "descendant_") && !StartsWith(p, "child_")
  {
    Differs(p, "descendant_", if p[0] == 'd' then 2 else 0);
    Differs(p, "child_", if p[0] != 'c' then 0 else if p[1] == 'r' then 1 else 2);
  }

  lemma NoFilterPrefix(p: string)
    requires NameShape(p)
    ensures !StartsWith(p, "open_") && !StartsWith(p, "toplevel_") && !StartsWith(p, "opentoplevel_")
  {
    Differs(p, "open_", 0);
    Differs(p, "toplevel_", 0);
    Differs(p, "opentoplevel_", 0);
  }

  lemma PermissionUnprefixed(p: string)
    requires p in PERMISSIONS
    ensures Unprefixed(p)
  {
    var i :| 0 <= i < |PERMISSIONS| && PERMISSIONS[i] == p;
    PermissionShape(i);
    NoPropagationPrefix(p);
    NoFilterPrefix(p);
  }

  ghost predicate PropagationIs(p: Propagation, s: string) {
    (p.Descendant? <==> StartsWith(s, "descendant_")) && (p.Child? <==> StartsWith(s, "child_"))
  }

  ghost predicate FilterIs(f: Filter, s: string) {
    && (f.Open? <==> StartsWith(s, "open_"))
    && (f.TopLevel? <==> StartsWith(s, "toplevel_"))
    && (f.OpenTopLevel? <==> StartsWith(s, "opentoplevel_"))
  }

  lemma SplitOnce(a: string, b: string, c: string, s: string)
    requires s == a + b && s == a + c
    ensures b == c
  {
    assert b == s[|a|..] && c == s[|a|..];
  }

  lemma PrintDetermines(k: Key, propagation: Propagation, rest: string, filter: Filter, permission: string)
    requires Unprefixed(k.permission)
    requires Print(k) == PropagationText(propagation) + rest && rest == FilterText(filter) + permission
    requires PropagationIs(propagation, Print(k)) && FilterIs(filter, rest)
    ensures k == Key(propagation, filter, permission)
  {
    var inner := FilterText(k.filter) + k.permission;
    assert Print(k) == PropagationText(k.propagation) + inner;
    FilterUnpropagated(k.filter, k.permission);
    PropagationFits(k.propagation, inner);
    assert k.propagation == propagation;
    SplitOnce(PropagationText(propagation), inner, rest, Print(k));
    FilterFits(k.filter, k.permission);
    assert k.filter == filter;
    SplitOnce(FilterText(filter), k.permission, permission, rest);
  }

  lemma OnlyReading(s: string, propagation: Propagation, rest: string, filter: Filter, permission: string)
    requires s == PropagationText(propagation) + rest && rest == FilterText(filter) + permission
    requires PropagationIs(propagation, s) && FilterIs(filter, rest)
    ensures forall k: Key {:trigger Print(k)} :: Print(k) == s && k.permission in PERMISSIONS ==> k == Key(propagation, filter, permission)
  {
    forall k: Key | Print(k) == s && k.permission in PERMISSIONS
      ensures k == Key(propagation, filter, permission)
    {
      PermissionUnprefixed(k.permission);
      PrintDetermines(k, propagation, rest, filter, permission);
    }
  }

  lemma FilterUnpropagated(f: Filter, permission: string)
    requires Unprefixed(permission)
    ensures !StartsWith(FilterText(f) + permission, "descendant_") && !StartsWith(FilterText(f) + permission, "child_")
  {
    var s := FilterText(f) + permission;
    if f.NoFilter? {
      assert s == permission;
    } else {
      assert s[0] == FilterText(f)[0];
    }
  }

  lemma PropagationFits(p: Propagation, inner: string)
    requires !StartsWith(inner, "descendant_") && !StartsWith(inner, "child_")
    ensures PropagationIs(p, PropagationText(p) + inner)
  {
    var s := PropagationText(p) + inner;
    if p.NotPropagated? {
      assert s == inner;
    } else {
      assert s[..|PropagationText(p)|] == PropagationText(p);
      assert s[0] == PropagationText(p)[0];
    }
  }

  lemma FilterFits(f: Filter, permission: string)
    requires Unprefixed(permission)
    ensures FilterIs(f, FilterText(f) + permission)
  {
    var s := FilterText(f) + permission;
    if f.NoFilter? {
      assert s == permission;
    } else {
      assert s[..|FilterText(f)|] == FilterText(f);
      assert s[0] == FilterText(f)[0] && s[4] == FilterText(f)[4];
    }
  }

  // ----- filters -----

  datatype ThreadType =
    | Sidebar | Personal | Private | Local | CommunityRoot | CommunityAnnouncementRoot | CommunityOpenSubthread
    | CommunityOpenAnnouncementSubthread | CommunitySecretSubthread | CommunitySecretAnnouncementSubthread | Genesis

  /** `includeThreadPermissionForThreadType` */
  predicate Includes(f: Filter, t: ThreadType) {
    if !t.CommunityOpenSubthread? && !t.CommunityOpenAnnouncementSubthread? && !t.Sidebar? && (f.Open? || f.OpenTopLevel?) then false
    else if t.Sidebar? && (f.TopLevel? || f.OpenTopLevel?) then false
    else true
  }

  /** What the prefixes are documented to mean. */
  lemma IncludesMeans(f: Filter, t: ThreadType)
    ensures var open := t.CommunityOpenSubthread? || t.CommunityOpenAnnouncementSubthread?;
      Includes(f, t) <==>
        match f
        case NoFilter => true
        case Open => open || t.Sidebar?
        case TopLevel => !t.Sidebar?
        case OpenTopLevel => open
  {
  }

  // ----- blobs: insertion-ordered objects; [] is also null -----

  datatype Info = Granted(source: string) | Denied
  datatype Entry = Entry(key: Key, info: Info)
  type Blob = seq<Entry>

  datatype Found = Missing | Info(info: Info)

  function Lookup(b: Blob, k: Key): Found {
    if |b| == 0 then Missing
    else if b[|b| - 1].key == k then Info(b[|b| - 1].info)
    else Lookup(b[..|b| - 1], k)
  }

  /** `b[k] = info` for a key that exists. */
  function Replaced(b: Blob, k: Key, info: Info): Blob
    requires Lookup(b, k).Info?
  {
    if b[|b| - 1].key == k then b[..|b| - 1] + [Entry(k, info)]
    else Replaced(b[..|b| - 1], k, info) + [b[|b| - 1]]
  }

  /** `b[k] = info`: in place when the key exists, else at the end. */
  function Set(b: Blob, k: Key, info: Info): Blob {
    if Lookup(b, k).Info? then Replaced(b, k, info) else b + [Entry(k, info)]
  }

  lemma {:induction false} LookupReplaced(b: Blob, k: Key, info: Info, x: Key)
    requires Lookup(b, k).Info?
    ensures Lookup(Replaced(b, k, info), x) == if x == k then Info(info) else Lookup(b, x)
  {
    var r := Replaced(b, k, info);
    if b[|b| - 1].key == k {
      assert r[..|r| - 1] == b[..|b| - 1];
    } else {
      LookupReplaced(b[..|b| - 1], k, info, x);
      assert r[..|r| - 1] == Replaced(b[..|b| - 1], k, info);
    }
  }

  lemma LookupSet(b: Blob, k: Key, info: Info, x: Key)
    ensures Lookup(Set(b, k, info), x) == if x == k then Info(info) else Lookup(b, x)
  {
    if Lookup(b, k).Info? {
      LookupReplaced(b, k, info, x);
    } else {
      assert (b + [Entry(k, info)])[..|b|] == b;
    }
  }

  ghost predicate UniqueKeys(b: Blob) {
    forall i, j :: 0 <= i < j < |b| ==> b[i].key != b[j].key
  }

  /** Writing a key keeps the order of the keys that exist and appends a new one. */
  lemma {:induction false} ReplacedKeys(b: Blob, k: Key, info: Info)
    requires Lookup(b, k).Info?
    ensures |Replaced(b, k, info)| == |b|
    ensures forall i :: 0 <= i < |b| ==>
      Replaced(b, k, info)[i].key == b[i].key && Replaced(b, k, info)[i] in [b[i], Entry(k, info)]
  {
    if b[|b| - 1].key != k {
      ReplacedKeys(b[..|b| - 1], k, info);
    }
  }

  lemma SetUnique(b: Blob, k: Key, info: Info)
    requires UniqueKeys(b)
    ensures UniqueKeys(Set(b, k, info))
    ensures forall e :: e in Set(b, k, info) ==> e == Entry(k, info) || e in b
  {
    if Lookup(b, k).Info? {
      ReplacedKeys(b, k, info);
    } else {
      forall e | e in b
        ensures e.key != k
      {
        LookupEntry(b, k);
      }
    }
  }

  lemma {:induction false} LookupEntry(b: Blob, k: Key)
    ensures Lookup(b, k).Info? ==> Entry(k, Lookup(b, k).info) in b
    ensures (exists e :: e in b && e.key == k) ==> Lookup(b, k).Info?
  {
    if |b| > 0 {
      LookupEntry(b[..|b| - 1], k);
      assert b == b[..|b| - 1] + [b[|b| - 1]];
    }
  }

  predicate Holds(b: Blob, k: Key) {
    Lookup(b, k).Info? && Lookup(b, k).info.Granted?
  }

  function Plain(p: string): Key {
    Key(NotPropagated, NoFilter, p)
  }

  /** `permissionLookup` */
  predicate PermissionLookup(b: Blob, p: string) {
    Holds(b, Plain(p)) && Holds(b, Plain(KNOW_OF))
  }

  // ----- the two blob functions -----

  datatype RoleEntry = RoleEntry(key: Key, value: bool)
  type Role = seq<RoleEntry>

  /** Where an entry of the parent's blob lands in the child's. */
  function Target(k: Key): Key {
    if k.propagation.NotPropagated? then Plain(k.permission) else k
  }

  function Inherited(fromParent: Blob, t: ThreadType): Blob {
    if |fromParent| == 0 then []
    else
      var front, e := Inherited(fromParent[..|fromParent| - 1], t), fromParent[|fromParent| - 1];
      if Includes(e.key.filter, t) then Set(front, Target(e.key), e.info) else front
  }

  function WithRole(b: Blob, role: Role, threadID: string): Blob {
    if |role| == 0 then b
    else
      var front, e := WithRole(b, role[..|role| - 1], threadID), role[|role| - 1];
      if e.value then Set(front, e.key, Granted(threadID))
      else if !Holds(front, e.key) then Set(front, e.key, Denied)
      else front
  }

  function PermissionsBlob(role: Role, fromParent: Blob, threadID: string, t: ThreadType): Blob {
    var inherited := Inherited(fromParent, t);
    var combined := WithRole(inherited, role, threadID);
    if PermissionLookup(combined, KNOW_OF) then combined else inherited
  }

  function ForChildren(b: Blob): Blob {
    if |b| == 0 then []
    else
      var front, e := ForChildren(b[..|b| - 1]), b[|b| - 1];
      if e.key.propagation.NotPropagated? then front
      else
        var kept := if e.key.propagation.Descendant? then Set(front, e.key, e.info) else front;
        Set(kept, Key(NotPropagated, e.key.filter, e.key.permission), e.info)
  }

  /** `makePermissionsBlob` */
  method MakePermissionsBlob(role: Role, fromParent: Blob, threadID: string, t: ThreadType) returns (permissions: Blob)
    ensures permissions == PermissionsBlob(role, fromParent, threadID, t)
  {
    permissions := [];
    for i := 0 to |fromParent|
      invariant permissions == Inherited(fromParent[..i], t)
    {
      assert fromParent[..i + 1][..i] == fromParent[..i];
      var key, info := fromParent[i].key, fromParent[i].info;
      if Includes(key.filter, t) {
        if !key.propagation.NotPropagated? {
          permissions := Set(permissions, key, info);
        } else {
          permissions := Set(permissions, Plain(key.permission), info);
        }
      }
    }
    assert fromParent[..|fromParent|] == fromParent;
    var combined := permissions;
    for i := 0 to |role|
      invariant combined == WithRole(permissions, role[..i], threadID)
    {
      assert role[..i + 1][..i] == role[..i];
      var current := Lookup(combined, role[i].key);
      if role[i].value {
        combined := Set(combined, role[i].key, Granted(threadID));
      } else if current.Missing? || current.info.Denied? {
        combined := Set(combined, role[i].key, Denied);
      }
    }
    assert role[..|role|] == role;
    if PermissionLookup(combined, KNOW_OF) {
      permissions := combined;
    }
  }

  /** `makePermissionsForChildrenBlob` */
  method MakePermissionsForChildrenBlob(permissions: Blob) returns (forChildren: Blob)
    ensures forChildren == ForChildren(permissions)
  {
    forChildren := [];
    for i := 0 to |permissions|
      invariant forChildren == ForChildren(permissions[..i])
    {
      assert permissions[..i + 1][..i] == permissions[..i];
      var key, info := permissions[i].key, permissions[i].info;
      if !key.propagation.NotPropagated? {
        if key.propagation.Descendant? {
          forChildren := Set(forChildren, key, info);
        }
        forChildren := Set(forChildren, Key(NotPropagated, key.filter, key.permission), info);
      }
    }
    assert permissions[..|permissions|] == permissions;
  }
}
