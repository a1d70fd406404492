/**
 What the operations on roles and users do to a sound document, told from the document and the payload
 alone: when each is refused, what changes, and that nothing else does.
 */
module SecurityEffects {
  import opened Text
  import opened Responses
  import opened SecurityDocuments
  import opened SecurityAdmin
  import opened SecurityIntegrity

  // ---------------------------------------------------------------------------
  // Lists from a payload
  // ---------------------------------------------------------------------------

  /** `x` is one of the items, blanks around it removed. */
  predicate Given(items: seq<string>, x: string) {
    exists i :: 0 <= i < |items| && Strip(items[i]) == x
  }

  lemma CleanedGives(items: seq<string>, x: string)
    ensures x in Cleaned(items) <==> Given(items, x)
  {
    CleanedHas(items);
    if Given(items, x) {
      var i :| 0 <= i < |items| && Strip(items[i]) == x;
      assert Strip(items[i]) in Cleaned(items);
    }
  }

  /** Which items are chosen. */
  lemma ChosenGives(items: seq<string>, A: set<string>)
    ensures forall x :: x in Chosen(items, A) <==> x in A && exists i :: 0 <= i < |items| && Strip(items[i]) == x
  {
    ChosenHas(items, A);
    forall x
      ensures x in Cleaned(items) <==> Given(items, x)
    {
      CleanedGives(items, x);
    }
  }

  lemma {:induction false} UniqueHasNoRepeats(s: seq<string>)
    requires Unique(s)
    ensures forall i, j :: 0 <= i < j < |s| ==> s[i] != s[j]
  {
    if s != [] {
      var n := |s| - 1;
      UniqueHasNoRepeats(s[..n]);
      assert forall i :: 0 <= i < n ==> s[i] == s[..n][i] && s[..n][i] in s[..n];
    }
  }

  /** What is chosen comes in the order in which it is given: each has an occurrence before all of a later one. */
  lemma {:induction false} ChosenInOrder(items: seq<string>, A: set<string>, i: nat, j: nat) returns (k: nat)
    requires i < j < |Chosen(items, A)|
    ensures k < |items| && Strip(items[k]) == Chosen(items, A)[i]
    ensures forall l :: 0 <= l <= k ==> Strip(items[l]) != Chosen(items, A)[j]
  {
    var n := |items| - 1;
    var front := Chosen(items[..n], A);
    assert Chosen(items, A)[i] == front[i];
    assert forall l :: 0 <= l < n ==> items[..n][l] == items[l];
    if j < |front| {
      k := ChosenInOrder(items[..n], A, i, j);
    } else {
      ChosenGives(items[..n], A);
      assert front[i] in front;
      k :| 0 <= k < n && Strip(items[..n][k]) == front[i];
    }
  }

  /** A cleaned list has the trimmed items in the order in which they first occur. */
  lemma {:induction false} CleanedIsDistinct(items: seq<string>)
    ensures Cleaned(items) == Distinct(StripAll(items))
  {
    if items != [] {
      var n := |items| - 1;
      CleanedIsDistinct(items[..n]);
      StripAllConcat(items[..n], [items[n]]);
      assert items == items[..n] + [items[n]];
      assert StripAll([items[n]]) == [Strip(items[n])] by {
        assert [items[n]][1..] == [];
      }
      assert (StripAll(items[..n]) + [Strip(items[n])])[..|StripAll(items)| - 1] == StripAll(items[..n]);
    }
  }

  lemma {:induction false} StripAllConcat(a: seq<string>, b: seq<string>)
    ensures StripAll(a + b) == StripAll(a) + StripAll(b)
  {
    if a == [] {
      assert a + b == b;
    } else {
      assert (a + b)[1..] == a[1..] + b;
      StripAllConcat(a[1..], b);
    }
  }

  // ---------------------------------------------------------------------------
  // Validation
  // ---------------------------------------------------------------------------

  lemma ListPasses(items: seq<string>, allowed: set<string>)
    ensures Within(Cleaned(items), allowed) <==> forall i :: 0 <= i < |items| ==> Strip(items[i]) in allowed
  {
    CleanedHas(items);
  }

  /**
   A document is accepted exactly when every permission is known, every role of a user defined, and every
   hash empty or of the right form, blanks around them aside. What is saved has every list trimmed, first
   occurrences only and in their order, the hashes trimmed, and everything else as it was.
   */
  lemma AcceptanceTheorem(A: set<string>, d: Document)
    ensures Validate(A, d).Some? <==>
              && (forall r :: r in d.roles ==> forall i :: 0 <= i < |d.roles[r]| ==> Strip(d.roles[r][i]) in A)
              && (forall name :: name in d.users ==>
                    && (forall i :: 0 <= i < |d.users[name].roles| ==> Strip(d.users[name].roles[i]) in d.roles)
                    && (Strip(d.users[name].passwordHash) == "" || Dollars(Strip(d.users[name].passwordHash)) == 3))
    ensures Validate(A, d).Some? ==>
              var n := Validate(A, d).value;
              && n.roles.Keys == d.roles.Keys && n.users.Keys == d.users.Keys
              && (forall r :: r in d.roles ==> n.roles[r] == Distinct(StripAll(d.roles[r])))
              && (forall name :: name in d.users ==>
                    && n.users[name].roles == Distinct(StripAll(d.users[name].roles))
                    && n.users[name].enabled == d.users[name].enabled
                    && n.users[name].passwordHash == Strip(d.users[name].passwordHash))
  {
    forall r | r in d.roles
      ensures Within(Cleaned(d.roles[r]), A) <==> forall i :: 0 <= i < |d.roles[r]| ==> Strip(d.roles[r][i]) in A
      ensures Cleaned(d.roles[r]) == Distinct(StripAll(d.roles[r]))
    {
      ListPasses(d.roles[r], A);
      CleanedIsDistinct(d.roles[r]);
    }
    forall name | name in d.users
      ensures UserPasses(d, d.users[name]) <==>
                && (forall i :: 0 <= i < |d.users[name].roles| ==> Strip(d.users[name].roles[i]) in d.roles)
                && (Strip(d.users[name].passwordHash) == "" || Dollars(Strip(d.users[name].passwordHash)) == 3)
      ensures Cleaned(d.users[name].roles) == Distinct(StripAll(d.users[name].roles))
    {
      ListPasses(d.users[name].roles, d.roles.Keys);
      CleanedIsDistinct(d.users[name].roles);
    }
  }

  // ---------------------------------------------------------------------------
  // Users
  // ---------------------------------------------------------------------------

  lemma UserIsAllowed(d: Document, op: Op)
    requires op.SaveUser?
    ensures var source := if op.original != "" then op.original else op.username;
            Allowed(d, op) <==>
              && (forall i :: 0 <= i < |op.roles| && Strip(op.roles[i]) != "" ==> Strip(op.roles[i]) in d.roles)
              && !(op.original != "" && op.original != op.username && op.username in d.users)
              && (op.password != "" || (source in d.users && d.users[source].passwordHash != ""))
  {
    HashIsWellFormed(op.salt, op.digest);
    RolesExistWhen(d, op.roles);
  }

  lemma RolesExistWhen(d: Document, roles: seq<string>)
    ensures RolesExist(d, roles) <==> forall i :: 0 <= i < |roles| && Strip(roles[i]) != "" ==> Strip(roles[i]) in d.roles
  {
    CleanedHas(roles);
  }

  lemma NewHashText(salt: Hex, digest: Hex)
    ensures HashText(salt, digest) == "pbkdf2_sha256$200000$" + salt + "$" + digest
  {
    assert ALGORITHM + "$" + ITERATIONS + "$" == "pbkdf2_sha256$200000$";
  }

  /**
   Saving a user is refused exactly when a role does not exist, when another user has the new name, or
   when there is neither a password nor a hash to keep. Otherwise the user named by the payload is
   replaced by the new entry under the new name: enabled as given, with exactly the trimmed, non-blank
   roles, and the hash of the new password or else the one it held. No role and no other user changes.
   */
  lemma SaveUserTheorem(A: set<string>, d: Document, op: Op)
    requires Sound(A, d) && op.SaveUser?
    ensures var source := if op.original != "" then op.original else op.username;
            && (Applied(A, d, op).Some? <==>
                  && (forall i :: 0 <= i < |op.roles| && Strip(op.roles[i]) != "" ==> Strip(op.roles[i]) in d.roles)
                  && !(op.original != "" && op.original != op.username && op.username in d.users)
                  && (op.password != "" || (source in d.users && d.users[source].passwordHash != "")))
            && (Applied(A, d, op).Some? ==>
                  var n := Applied(A, d, op).value;
                  && n.roles == d.roles
                  && n.users.Keys == d.users.Keys - (if op.original != "" then {op.original} else {}) + {op.username}
                  && (forall name :: name in n.users && name != op.username ==>
                        name in d.users && n.users[name] == d.users[name])
                  && var u := n.users[op.username];
                     && u.enabled == op.enabled
                     && (forall x :: x in u.roles <==> x != "" && exists i :: 0 <= i < |op.roles| && Strip(op.roles[i]) == x)
                     && (forall i, j :: 0 <= i < j < |u.roles| ==> u.roles[i] != u.roles[j])
                     && u.passwordHash == if op.password != "" then "pbkdf2_sha256$200000$" + op.salt + "$" + op.digest
                                          else d.users[source].passwordHash)
  {
    UserIsAllowed(d, op);
    if Allowed(d, op) {
      SaveTheorem(A, d, op);
      UserEdited(d, op);
      NewHashText(op.salt, op.digest);
    }
  }

  /** A saved user has its roles in the order in which they are given. */
  lemma RolesInOrder(A: set<string>, d: Document, op: Op, i: nat, j: nat) returns (k: nat)
    requires Sound(A, d) && op.SaveUser? && Applied(A, d, op).Some?
    requires op.username in Applied(A, d, op).value.users && i < j < |Applied(A, d, op).value.users[op.username].roles|
    ensures var roles := Applied(A, d, op).value.users[op.username].roles;
            && k < |op.roles| && Strip(op.roles[k]) == roles[i]
            && forall l :: 0 <= l <= k ==> Strip(op.roles[l]) != roles[j]
  {
    SaveTheorem(A, d, op);
    k := ChosenInOrder(op.roles, d.roles.Keys - {""}, i, j);
  }

  lemma UserEdited(d: Document, op: Op)
    requires op.SaveUser? && Allowed(d, op)
    ensures var n := WithUser(d, op);
            && n.users.Keys == d.users.Keys - (if op.original != "" then {op.original} else {}) + {op.username}
            && (forall x :: x in n.users[op.username].roles <==>
                  x != "" && exists i :: 0 <= i < |op.roles| && Strip(op.roles[i]) == x)
            && (forall i, j :: 0 <= i < j < |n.users[op.username].roles| ==>
                  n.users[op.username].roles[i] != n.users[op.username].roles[j])
  {
    ChosenGives(op.roles, d.roles.Keys - {""});
    ChosenHas(op.roles, d.roles.Keys - {""});
    UniqueHasNoRepeats(Chosen(op.roles, d.roles.Keys - {""}));
    RolesExistWhen(d, op.roles);
  }

  /** Deleting a user takes away that user alone. */
  lemma DeleteUserTheorem(A: set<string>, d: Document, username: string)
    requires Sound(A, d)
    ensures Applied(A, d, DeleteUser(username))
            == if username in d.users then Some(Document(d.roles, d.users - {username})) else None
  {
    if username in d.users {
      SaveTheorem(A, d, DeleteUser(username));
    }
  }

  // ---------------------------------------------------------------------------
  // Roles
  // ---------------------------------------------------------------------------

  /** Deleting a role takes away that role alone, and is refused exactly when it is unknown or somebody has it. */
  lemma DeleteRoleTheorem(A: set<string>, d: Document, role: string)
    requires Sound(A, d)
    ensures Applied(A, d, DeleteRole(role))
            == if role in d.roles && forall name :: name in d.users ==> role !in d.users[name].roles
               then Some(Document(d.roles - {role}, d.users)) else None
  {
    if role in d.roles && !Assigned(d, role) {
      SaveTheorem(A, d, DeleteRole(role));
    }
  }

  /** The permissions of a saved role: the known ones of the payload, each once. */
  ghost predicate Grants(A: set<string>, granted: seq<string>, permissions: seq<string>) {
    && (forall x :: x in granted <==> x in A && exists i :: 0 <= i < |permissions| && Strip(permissions[i]) == x)
    && forall i, j :: 0 <= i < j < |granted| ==> granted[i] != granted[j]
  }

  lemma ChosenGrants(A: set<string>, permissions: seq<string>)
    ensures Grants(A, Chosen(permissions, A), permissions)
  {
    ChosenGives(permissions, A);
    ChosenHas(permissions, A);
    UniqueHasNoRepeats(Chosen(permissions, A));
  }

  /** Saving a role under its own name is never refused, and sets that role's permissions and nothing else. */
  lemma SaveRoleTheorem(A: set<string>, d: Document, original: string, role: string, permissions: seq<string>)
    requires Sound(A, d) && (original == "" || original == role)
    ensures var r := Applied(A, d, SaveRole(original, role, permissions));
            && r.Some? && r.value.users == d.users
            && r.value.roles.Keys == d.roles.Keys + {role}
            && (forall other :: other in d.roles && other != role ==> r.value.roles[other] == d.roles[other])
            && (forall x :: x in r.value.roles[role] <==>
                  x in A && exists i :: 0 <= i < |permissions| && Strip(permissions[i]) == x)
            && (forall i, j :: 0 <= i < j < |r.value.roles[role]| ==> r.value.roles[role][i] != r.value.roles[role][j])
  {
    SaveTheorem(A, d, SaveRole(original, role, permissions));
    ChosenGrants(A, permissions);
  }

  /** And in the order in which they are given. */
  lemma PermissionsInOrder(A: set<string>, d: Document, original: string, role: string, permissions: seq<string>, i: nat, j: nat)
    returns (k: nat)
    requires Sound(A, d) && (original == "" || original == role)
    requires var r := Applied(A, d, SaveRole(original, role, permissions));
             r.Some? && role in r.value.roles && i < j < |r.value.roles[role]|
    ensures var granted := Applied(A, d, SaveRole(original, role, permissions)).value.roles[role];
            && k < |permissions| && Strip(permissions[k]) == granted[i]
            && forall l :: 0 <= l <= k ==> Strip(permissions[l]) != granted[j]
  {
    SaveTheorem(A, d, SaveRole(original, role, permissions));
    k := ChosenInOrder(permissions, A, i, j);
  }

  /**
   Saving a role under another name is refused when that name is taken. Otherwise, unless somebody has
   the role and the new name has blanks around it, it takes the old name away, sets the new one's
   permissions, gives it to exactly the holders of the old one, and changes nothing else.
   */
  lemma RenameRoleTheorem(A: set<string>, d: Document, original: string, role: string, permissions: seq<string>)
    requires Sound(A, d) && original != "" && original != role
    ensures role in d.roles ==> Applied(A, d, SaveRole(original, role, permissions)).None?
    ensures role !in d.roles && (Trimmed(role) || forall name :: name in d.users ==> original !in d.users[name].roles) ==>
              var r := Applied(A, d, SaveRole(original, role, permissions));
              && r.Some? && r.value.roles.Keys == d.roles.Keys - {original} + {role}
              && (forall other :: other in d.roles && other != original ==> r.value.roles[other] == d.roles[other])
              && (forall x :: x in r.value.roles[role] <==>
                    x in A && exists i :: 0 <= i < |permissions| && Strip(permissions[i]) == x)
              && r.value.users.Keys == d.users.Keys
              && forall name :: name in d.users ==>
                   && r.value.users[name].enabled == d.users[name].enabled
                   && r.value.users[name].passwordHash == d.users[name].passwordHash
                   && (role in r.value.users[name].roles <==> original in d.users[name].roles)
                   && original !in r.value.users[name].roles
                   && forall x :: x != original && x != role ==>
                        (x in r.value.users[name].roles <==> x in d.users[name].roles)
  {
    var op := SaveRole(original, role, permissions);
    if role !in d.roles && (Trimmed(role) || forall name :: name in d.users ==> original !in d.users[name].roles) {
      assert Clear(d, op);
      RenameTheorem(A, d, op);
      ChosenGrants(A, permissions);
    }
  }

  /** A rename puts the new name where the old one stood, in the roles of every user. */
  lemma RenameInPlace(A: set<string>, d: Document, original: string, role: string, permissions: seq<string>, name: string)
    requires Sound(A, d) && original != "" && original != role && role !in d.roles && name in d.users
    requires Trimmed(role) || forall other :: other in d.users ==> original !in d.users[other].roles
    ensures var r, before := Applied(A, d, SaveRole(original, role, permissions)), d.users[name].roles;
            && r.Some? && name in r.value.users
            && var after := r.value.users[name].roles;
               && |after| == |before|
               && forall i :: 0 <= i < |before| ==> after[i] == if before[i] == original then role else before[i]
  {
    var op := SaveRole(original, role, permissions);
    assert Clear(d, op);
    SaveTheorem(A, d, op);
    var before := d.users[name].roles;
    ReplacedIsUnique(before, original, role);
    DistinctKeeps(Replaced(before, original, role));
  }

  lemma {:induction false} ReplacedIsUnique(roles: seq<string>, original: string, role: string)
    requires Unique(roles) && role !in roles
    ensures Unique(Replaced(roles, original, role))
  {
    if roles != [] {
      var n := |roles| - 1;
      ReplacedIsUnique(roles[..n], original, role);
      assert forall i :: 0 <= i < n ==> roles[..n][i] == roles[i] && roles[i] in roles[..n];
      assert Replaced(roles, original, role)[..n] == Replaced(roles[..n], original, role);
    }
  }
}
