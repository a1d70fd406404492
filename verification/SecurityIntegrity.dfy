/**
 What every run of role and user operations keeps, when saving accepts an edit as it is, what a rename
 moves, and what permissions users have.
 */
module SecurityIntegrity {
  import opened Text
  import opened Responses
  import opened SecurityDocuments
  import opened SecurityAdmin

  // ---------------------------------------------------------------------------
  // Runs
  // ---------------------------------------------------------------------------

  /** A run of operations; one that raises leaves the saved document alone. */
  function After(A: set<string>, d: Document, ops: seq<Op>): Document
    decreases |ops|
  {
    if ops == [] then d
    else
      var r := Applied(A, d, ops[0]);
      After(A, if r.Some? then r.value else d, ops[1..])
  }

  /** Every run from a validated document keeps it sound, and no later validation rejects or changes it. */
  lemma {:induction false} RunTheorem(A: set<string>, d: Document, ops: seq<Op>)
    requires Validate(A, d) == Some(d)
    ensures Sound(A, After(A, d, ops)) && Validate(A, After(A, d, ops)) == Some(After(A, d, ops))
    decreases |ops|
  {
    ValidationTheorem(A, d);
    if ops != [] {
      var r := Applied(A, d, ops[0]);
      ValidationTheorem(A, Edited(A, d, ops[0]));
      RunTheorem(A, if r.Some? then r.value else d, ops[1..]);
    }
  }

  // ---------------------------------------------------------------------------
  // When an edit is saved as it is
  // ---------------------------------------------------------------------------

  lemma ReplacedHas(roles: seq<string>, before: string, after: string, x: string)
    ensures x in Replaced(roles, before, after)
            <==> (x == after && before in roles) || (x != before && x in roles)
  {
    var r := Replaced(roles, before, after);
    if x in r {
      var i :| 0 <= i < |r| && r[i] == x;
      assert roles[i] in roles;
    }
    if before in roles {
      var i :| 0 <= i < |roles| && roles[i] == before;
      assert r[i] == after;
    }
    if x in roles && x != before {
      var i :| 0 <= i < |roles| && roles[i] == x;
      assert r[i] == x;
    }
  }

  lemma ReassignedHas(u: User, before: string, after: string, x: string)
    ensures x in Reassigned(u, before, after).roles
            <==> (x == after && before in u.roles) || (x != before && x in u.roles)
  {
    ReplacedHas(u.roles, before, after, x);
    DistinctKeeps(Replaced(u.roles, before, after));
  }

  lemma NotReassigned(u: User, before: string, after: string)
    requires before !in u.roles && Unique(u.roles)
    ensures Reassigned(u, before, after) == u
  {
    assert Replaced(u.roles, before, after) == u.roles;
    DistinctKeeps(u.roles);
  }

  /** A rename has nothing to move, or a name that validation will not trim. */
  predicate Clear(d: Document, op: Op) {
    op.SaveRole? && Renames(op.original, op.role) ==> Trimmed(op.role) || !Assigned(d, op.original)
  }

  lemma RenamedUserIsSound(d: Document, e: Document, u: User, before: string, after: string)
    requires SoundUser(d, u) && e.roles.Keys == d.roles.Keys - {before} + {after} && before != after
    requires before in u.roles ==> Trimmed(after)
    ensures SoundUser(e, Reassigned(u, before, after))
  {
    var v := Reassigned(u, before, after);
    DistinctKeeps(Replaced(u.roles, before, after));
    forall x | x in v.roles
      ensures x in e.roles && Trimmed(x)
    {
      ReassignedHas(u, before, after, x);
    }
  }

  lemma EditedRoleIsSound(A: set<string>, d: Document, op: Op)
    requires Sound(A, d) && Allowed(d, op) && Clear(d, op) && op.SaveRole?
    ensures Sound(A, Edited(A, d, op))
  {
    var e := Edited(A, d, op);
    ChosenHas(op.permissions, A);
    if Renames(op.original, op.role) {
      forall name | name in e.users
        ensures SoundUser(e, e.users[name])
      {
        assert SoundUser(d, d.users[name]);
        assert op.original in d.users[name].roles ==> Assigned(d, op.original);
        RenamedUserIsSound(d, e, d.users[name], op.original, op.role);
      }
    } else {
      forall name | name in e.users
        ensures SoundUser(e, e.users[name])
      {
        assert SoundUser(d, d.users[name]);
      }
    }
  }

  lemma EditedUserIsSound(A: set<string>, d: Document, op: Op)
    requires Sound(A, d) && Allowed(d, op) && op.SaveUser?
    ensures Sound(A, Edited(A, d, op))
  {
    var e := Edited(A, d, op);
    ChosenHas(op.roles, d.roles.Keys - {""});
    forall name | name in e.users
      ensures SoundUser(e, e.users[name])
    {
      if name in d.users {
        assert SoundUser(d, d.users[name]);
      }
      if name == op.username {
        NewHashIsSound(A, d, op);
      }
    }
  }

  lemma NewHashIsSound(A: set<string>, d: Document, op: Op)
    requires Sound(A, d) && op.SaveUser?
    ensures Trimmed(NewHash(d, op)) && HashFormat(NewHash(d, op))
  {
    HashIsWellFormed(op.salt, op.digest);
    var name := if op.original != "" then op.original else op.username;
    if name in d.users {
      assert SoundUser(d, d.users[name]);
    }
  }

  lemma EditedByDeletionIsSound(A: set<string>, d: Document, op: Op)
    requires Sound(A, d) && Allowed(d, op) && (op.DeleteRole? || op.DeleteUser?)
    ensures Sound(A, Edited(A, d, op))
  {
    var e := Edited(A, d, op);
    forall name | name in e.users
      ensures SoundUser(e, e.users[name])
    {
      assert SoundUser(d, d.users[name]);
    }
  }

  lemma UntrimmedIsNotSound(A: set<string>, d: Document, op: Op)
    requires Sound(A, d) && !Clear(d, op)
    ensures !Sound(A, Edited(A, d, op))
  {
    var name :| name in d.users && op.original in d.users[name].roles;
    ReassignedHas(d.users[name], op.original, op.role, op.role);
    var e := Edited(A, d, op);
    assert op.role in e.users[name].roles;
    assert !SoundUser(e, e.users[name]);
  }

  /**
   From a sound document, an operation that passes its own checks is saved exactly as edited, with
   nothing rejected or changed by validation, if and only if it does not rename an assigned role to a
   name with blanks around it.
   */
  lemma SaveTheorem(A: set<string>, d: Document, op: Op)
    requires Sound(A, d) && Allowed(d, op)
    ensures Applied(A, d, op) == Some(Edited(A, d, op)) <==> Clear(d, op)
  {
    if Clear(d, op) {
      match op
      case SaveRole(_, _, _) => EditedRoleIsSound(A, d, op);
      case SaveUser(_, _, _, _, _, _, _) => EditedUserIsSound(A, d, op);
      case DeleteRole(_) => EditedByDeletionIsSound(A, d, op);
      case DeleteUser(_) => EditedByDeletionIsSound(A, d, op);
    } else {
      UntrimmedIsNotSound(A, d, op);
    }
    ValidationTheorem(A, Edited(A, d, op));
  }

  // ---------------------------------------------------------------------------
  // What a rename moves
  // ---------------------------------------------------------------------------

  /** The holders of `before` hold `after` instead, and nobody's other roles change. */
  ghost predicate Moved(d: Document, n: Document, before: string, after: string) {
    && n.users.Keys == d.users.Keys
    && forall name, role :: name in d.users ==>
         && (role in n.users[name].roles <==>
               if role == after then before in d.users[name].roles
               else role != before && role in d.users[name].roles)
         && n.users[name].enabled == d.users[name].enabled
         && n.users[name].passwordHash == d.users[name].passwordHash
  }

  lemma EditedMoves(A: set<string>, d: Document, op: Op)
    requires Sound(A, d) && Allowed(d, op) && op.SaveRole? && Renames(op.original, op.role)
    ensures Moved(d, Edited(A, d, op), op.original, op.role)
  {
    forall name, role | name in d.users
      ensures role in Edited(A, d, op).users[name].roles <==>
                if role == op.role then op.original in d.users[name].roles
                else role != op.original && role in d.users[name].roles
    {
      assert SoundUser(d, d.users[name]);
      ReassignedHas(d.users[name], op.original, op.role, role);
    }
  }

  /**
   A rename moves exactly the holders of the old role, leaving every other role with its permissions,
   if and only if nobody holds the role or the new name has no blanks around it.
   */
  lemma RenameTheorem(A: set<string>, d: Document, op: Op)
    requires Sound(A, d) && Allowed(d, op) && op.SaveRole? && Renames(op.original, op.role)
    ensures var r := Applied(A, d, op);
            && (r.Some? && Moved(d, r.value, op.original, op.role) <==> Clear(d, op))
            && (Clear(d, op) ==> r.value.roles == (d.roles - {op.original})[op.role := Chosen(op.permissions, A)])
  {
    SaveTheorem(A, d, op);
    EditedMoves(A, d, op);
    var r := Applied(A, d, op);
    if !Clear(d, op) && r.Some? {
      var name :| name in d.users && op.original in d.users[name].roles;
      ValidationTheorem(A, Edited(A, d, op));
      assert SoundUser(r.value, r.value.users[name]);
      assert op.role !in r.value.users[name].roles;
    }
  }

  /** Otherwise the holders end up in the role of the trimmed name, if there is one; if not, the rename fails. */
  lemma UntrimmedRename(A: set<string>, d: Document, op: Op, name: string)
    requires Sound(A, d) && Allowed(d, op) && !Clear(d, op)
    requires name in d.users && op.original in d.users[name].roles
    ensures var r, trimmed := Applied(A, d, op), Strip(op.role);
            && (r.Some? <==> trimmed in d.roles && trimmed != op.original)
            && (r.Some? ==> trimmed in r.value.users[name].roles)
  {
    var e, trimmed := Edited(A, d, op), Strip(op.role);
    StripTrims(op.role);
    SoundRolesPass(A, d);
    ChosenPass(A, d, e, op);
    if trimmed in d.roles && trimmed != op.original {
      forall u | u in e.users
        ensures UserPasses(e, e.users[u])
      {
        RenamedUserPasses(A, d, op, u);
      }
      CleanedAfterRename(d, d.users[name], op.original, op.role);
    } else {
      CleanedAfterRename(d, d.users[name], op.original, op.role);
      assert trimmed !in e.roles;
      assert !UserPasses(e, e.users[name]);
    }
  }

  lemma RenamedUserPasses(A: set<string>, d: Document, op: Op, name: string)
    requires Sound(A, d) && op.SaveRole? && Renames(op.original, op.role) && name in d.users
    requires Strip(op.role) in d.roles && Strip(op.role) != op.original
    ensures UserPasses(Edited(A, d, op), Edited(A, d, op).users[name])
  {
    assert SoundUser(d, d.users[name]);
    CleanedAfterRename(d, d.users[name], op.original, op.role);
  }

  lemma ChosenPass(A: set<string>, d: Document, e: Document, op: Op)
    requires RolesPass(A, d) && op.SaveRole? && e == Edited(A, d, op)
    ensures RolesPass(A, e)
  {
    ChosenHas(op.permissions, A);
    CleanStaysClean(Chosen(op.permissions, A));
  }

  lemma CleanedAfterRename(d: Document, u: User, before: string, after: string)
    requires SoundUser(d, u)
    ensures var v := Reassigned(u, before, after);
            && (forall x :: x in Cleaned(v.roles) ==>
                  (x == Strip(after) && before in u.roles) || (x != before && x in d.roles))
            && (before in u.roles ==> Strip(after) in Cleaned(v.roles))
            && HashFormat(Strip(v.passwordHash))
  {
    var v := Reassigned(u, before, after);
    StripTrims(u.passwordHash);
    CleanedHas(v.roles);
    forall x | x in Cleaned(v.roles)
      ensures (x == Strip(after) && before in u.roles) || (x != before && x in d.roles)
    {
      var i :| 0 <= i < |v.roles| && Strip(v.roles[i]) == x;
      ReassignedHas(u, before, after, v.roles[i]);
      StripTrims(v.roles[i]);
    }
    if before in u.roles {
      ReassignedHas(u, before, after, after);
      var i :| 0 <= i < |v.roles| && v.roles[i] == after;
      assert Strip(v.roles[i]) in Cleaned(v.roles);
    }
  }

  // ---------------------------------------------------------------------------
  // Permissions
  // ---------------------------------------------------------------------------

  /** The permissions of a list of roles; a role that is not defined gives none. */
  function Permissions(d: Document, roles: seq<string>): set<string> {
    set r, p | r in roles && r in d.roles && p in d.roles[r] :: p
  }

  method CollectPermissions(d: Document, roles: seq<string>) returns (permissions: set<string>)
    ensures permissions == Permissions(d, roles)
    ensures forall p :: p in permissions <==> exists r :: r in roles && r in d.roles && p in d.roles[r]
  {
    permissions := {};
    for n := 0 to |roles|
      invariant permissions == Permissions(d, roles[..n])
    {
      assert roles[..n + 1] == roles[..n] + [roles[n]];
      var granted := if roles[n] in d.roles then d.roles[roles[n]] else [];
      permissions := permissions + (set p | p in granted);
    }
    assert roles[..|roles|] == roles;
  }

  /** In a sound document nobody has a permission that is not known, whatever the operations before. */
  lemma PermissionsAreKnown(A: set<string>, d: Document, ops: seq<Op>, name: string)
    requires Validate(A, d) == Some(d) && name in After(A, d, ops).users
    ensures Permissions(After(A, d, ops), After(A, d, ops).users[name].roles) <= A
  {
    RunTheorem(A, d, ops);
  }

  /** Renaming a role without changing its permissions changes nobody's permissions. */
  lemma RenameKeepsPermissions(A: set<string>, d: Document, op: Op, name: string)
    requires Sound(A, d) && Allowed(d, op) && op.SaveRole? && Renames(op.original, op.role) && Clear(d, op)
    requires op.original in d.roles && op.permissions == d.roles[op.original] && name in d.users
    ensures var r := Applied(A, d, op);
            && r.Some? && name in r.value.users
            && Permissions(r.value, r.value.users[name].roles) == Permissions(d, d.users[name].roles)
  {
    RenameTheorem(A, d, op);
    var n := Applied(A, d, op).value;
    ChosenOfSound(A, op.permissions);
    SamePermissions(d, n, d.users[name].roles, n.users[name].roles, op.original, op.role);
  }

  lemma SamePermissions(d: Document, n: Document, u: seq<string>, v: seq<string>, before: string, after: string)
    requires before in d.roles && after !in d.roles && after !in u
    requires n.roles == (d.roles - {before})[after := d.roles[before]]
    requires forall role :: role in v <==> if role == after then before in u else role != before && role in u
    ensures Permissions(n, v) == Permissions(d, u)
  {
    forall p | p in Permissions(d, u)
      ensures p in Permissions(n, v)
    {
      var r :| r in u && r in d.roles && p in d.roles[r];
      var t := if r == before then after else r;
      assert t in v && t in n.roles && p in n.roles[t];
    }
    forall p | p in Permissions(n, v)
      ensures p in Permissions(d, u)
    {
      var r :| r in v && r in n.roles && p in n.roles[r];
      var t := if r == after then before else r;
      assert t in u && t in d.roles && p in d.roles[t];
    }
  }

  lemma {:induction false} ChosenOfSound(A: set<string>, items: seq<string>)
    requires Within(items, A) && Unique(items) && AllTrimmed(items)
    ensures Chosen(items, A) == items
  {
    if items != [] {
      var n := |items| - 1;
      var front, x := items[..n], items[n];
      assert items == front + [x];
      ChosenOfSound(A, front);
      StripTrims(x);
      ChosenStep(items, A, front, x);
    }
  }

  lemma ChosenStep(items: seq<string>, A: set<string>, front: seq<string>, x: string)
    requires items == front + [x] && Strip(x) == x && x in A && x !in Chosen(front, A)
    ensures Chosen(items, A) == Chosen(front, A) + [x]
  {
    assert items[..|items| - 1] == front;
  }
}
