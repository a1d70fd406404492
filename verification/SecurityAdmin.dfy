/**
 Maintenance of roles and users. Every operation edits a copy of the saved document and saves it,
 which validates it first; an operation that fails leaves the saved document as it was.
 */
module SecurityAdmin {
  import opened Text
  import opened Responses
  import opened SecurityDocuments

  predicate IsHex(s: string) {
    forall c :: c in s ==> '0' <= c <= '9' || 'a' <= c <= 'f'
  }

  type Hex = s: string | IsHex(s)

  const ALGORITHM := "pbkdf2_sha256"
  const ITERATIONS := "200000"

  /** A new password hash, from a random salt and the digest. */
  function HashText(salt: Hex, digest: Hex): string {
    ALGORITHM + "$" + ITERATIONS + "$" + salt + "$" + digest
  }

  datatype Op =
    | SaveRole(original: string, role: string, permissions: seq<string>)
    | DeleteRole(role: string)
    | SaveUser(original: string, username: string, password: string, roles: seq<string>, enabled: bool, salt: Hex, digest: Hex)
    | DeleteUser(username: string)

  // ---------------------------------------------------------------------------
  // The operations on documents
  // ---------------------------------------------------------------------------

  /** Trimmed items that are in the set, first occurrences only. */
  function Chosen(items: seq<string>, A: set<string>): seq<string> {
    if items == [] then []
    else
      var front := Chosen(items[..|items| - 1], A);
      var x := Strip(items[|items| - 1]);
      if x in A && x !in front then front + [x] else front
  }

  lemma {:induction false} ChosenHas(items: seq<string>, A: set<string>)
    ensures Within(Chosen(items, A), A) && Unique(Chosen(items, A)) && AllTrimmed(Chosen(items, A))
    ensures forall x :: x in Chosen(items, A) <==> x in Cleaned(items) && x in A
  {
    if items != [] {
      var n := |items| - 1;
      ChosenHas(items[..n], A);
      StripTrims(items[n]);
      var front := Chosen(items[..n], A);
      assert (front + [Strip(items[n])])[..|front|] == front;
    }
  }

  function Replaced(roles: seq<string>, before: string, after: string): seq<string> {
    seq(|roles|, i requires 0 <= i < |roles| => if roles[i] == before then after else roles[i])
  }

  function Reassigned(u: User, before: string, after: string): User {
    u.(roles := Distinct(Replaced(u.roles, before, after)))
  }

  predicate Renames(original: string, role: string) {
    original != "" && original != role
  }

  function WithRole(A: set<string>, d: Document, original: string, role: string, permissions: seq<string>): Document {
    if Renames(original, role) then
      Document((d.roles - {original})[role := Chosen(permissions, A)],
               map name | name in d.users :: Reassigned(d.users[name], original, role))
    else
      d.(roles := d.roles[role := Chosen(permissions, A)])
  }

  predicate Assigned(d: Document, role: string) {
    exists name :: name in d.users && role in d.users[name].roles
  }

  predicate RolesExist(d: Document, roles: seq<string>) {
    forall x :: x in Cleaned(roles) && x != "" ==> x in d.roles
  }

  /** The user entry that a new payload starts from. */
  function Existing(d: Document, original: string, username: string): string {
    var name := if original != "" then original else username;
    if name in d.users then d.users[name].passwordHash else ""
  }

  function NewHash(d: Document, op: Op): string
    requires op.SaveUser?
  {
    if op.password != "" then HashText(op.salt, op.digest) else Existing(d, op.original, op.username)
  }

  function WithUser(d: Document, op: Op): Document
    requires op.SaveUser?
  {
    var users := if Renames(op.original, op.username) then d.users - {op.original} else d.users;
    d.(users := users[op.username := User(Chosen(op.roles, d.roles.Keys - {""}), op.enabled, NewHash(d, op))])
  }

  /** The operation's own checks. */
  predicate Allowed(d: Document, op: Op) {
    match op
    case SaveRole(original, role, _) => !(Renames(original, role) && role in d.roles)
    case DeleteRole(role) => role in d.roles && !Assigned(d, role)
    case SaveUser(original, username, _, roles, _, _, _) =>
      && RolesExist(d, roles)
      && !(Renames(original, username) && username in d.users)
      && NewHash(d, op) != ""
    case DeleteUser(username) => username in d.users
  }

  function Edited(A: set<string>, d: Document, op: Op): Document {
    match op
    case SaveRole(original, role, permissions) => WithRole(A, d, original, role, permissions)
    case DeleteRole(role) => d.(roles := d.roles - {role})
    case SaveUser(_, _, _, _, _, _, _) => WithUser(d, op)
    case DeleteUser(username) => d.(users := d.users - {username})
  }

  /** The document after an operation; None when the operation raises. */
  function Applied(A: set<string>, d: Document, op: Op): Option<Document> {
    if Allowed(d, op) then Validate(A, Edited(A, d, op)) else None
  }

  // ---------------------------------------------------------------------------
  // The operations on the saved document
  // ---------------------------------------------------------------------------

  class SecurityStore {
    const known: set<string>
    var saved: Document

    constructor (initial: Document)
      ensures known == ALL_PERMISSIONS && saved == initial
    {
      known, saved := ALL_PERMISSIONS, initial;
    }

    method Save(document: Document) returns (ok: bool)
      modifies this
      ensures ok <==> Validate(known, document).Some?
      ensures saved == if ok then Validate(known, document).value else old(saved)
    {
      var normalized := ValidateSecurityDocument(known, document);
      ok := normalized.Some?;
      if ok {
        saved := normalized.value;
      }
    }

    method SaveRole(original: string, role: string, permissions: seq<string>) returns (ok: bool)
      modifies this
      ensures var r := Applied(known, old(saved), Op.SaveRole(original, role, permissions));
              ok == r.Some? && saved == if ok then r.value else old(saved)
    {
      var roles, users := saved.roles, saved.users;
      var normalized := ChooseKnown(permissions, known);
      if original != "" && original != role {
        if role in roles {
          return false;
        }
        roles := roles - {original};
        var todo: set<string> := users.Keys;
        while todo != {}
          invariant todo <= users.Keys == saved.users.Keys
          invariant forall k :: k in users ==>
                      users[k] == if k in todo then saved.users[k] else Reassigned(saved.users[k], original, role)
        {
          var name :| name in todo;
          users := users[name := users[name].(roles := Distinct(Replaced(users[name].roles, original, role)))];
          todo := todo - {name};
        }
      }
      roles := roles[role := normalized];
      assert Document(roles, users) == WithRole(known, saved, original, role, permissions);
      ok := Save(Document(roles, users));
    }

    method DeleteRole(role: string) returns (ok: bool)
      modifies this
      ensures var r := Applied(known, old(saved), Op.DeleteRole(role));
              ok == r.Some? && saved == if ok then r.value else old(saved)
    {
      if role !in saved.roles {
        return false;
      }
      var todo := saved.users.Keys;
      while todo != {}
        invariant todo <= saved.users.Keys
        invariant forall k :: k in saved.users && k !in todo ==> role !in saved.users[k].roles
      {
        var name :| name in todo;
        if role in saved.users[name].roles {
          assert Assigned(saved, role);
          return false;
        }
        todo := todo - {name};
      }
      ok := Save(saved.(roles := saved.roles - {role}));
    }

    method SaveUser(original: string, username: string, password: string, roles: seq<string>, enabled: bool, salt: Hex, digest: Hex)
      returns (ok: bool)
      modifies this
      ensures var r := Applied(known, old(saved), Op.SaveUser(original, username, password, roles, enabled, salt, digest));
              ok == r.Some? && saved == if ok then r.value else old(saved)
    {
      var normalized := ChooseRoles(saved, roles);
      if normalized == None {
        return false;
      }
      var users := saved.users;
      var existing := Existing(saved, original, username);
      if original != "" && original != username {
        if username in users {
          return false;
        }
        users := users - {original};
      }
      var hash := existing;
      if password != "" {
        hash := HashText(salt, digest);
      } else if existing == "" {
        return false;
      }
      users := users[username := User(normalized.value, enabled, hash)];
      ok := Save(saved.(users := users));
    }

    method DeleteUser(username: string) returns (ok: bool)
      modifies this
      ensures var r := Applied(known, old(saved), Op.DeleteUser(username));
              ok == r.Some? && saved == if ok then r.value else old(saved)
    {
      if username !in saved.users {
        return false;
      }
      ok := Save(saved.(users := saved.users - {username}));
    }
  }

  method ChooseKnown(items: seq<string>, A: set<string>) returns (r: seq<string>)
    ensures r == Chosen(items, A)
  {
    r := [];
    for n := 0 to |items|
      invariant r == Chosen(items[..n], A)
    {
      assert items[..n + 1][..n] == items[..n];
      var item := Strip(items[n]);
      if item in A && item !in r {
        r := r + [item];
      }
    }
    assert items[..|items|] == items;
  }

  /** The trimmed roles to assign, blank ones dropped; fails on a role that does not exist. */
  method ChooseRoles(d: Document, roles: seq<string>) returns (r: Option<seq<string>>)
    ensures r == if RolesExist(d, roles) then Some(Chosen(roles, d.roles.Keys - {""})) else None
  {
    var chosen: seq<string> := [];
    for n := 0 to |roles|
      invariant chosen == Chosen(roles[..n], d.roles.Keys - {""}) && RolesExist(d, roles[..n])
    {
      assert roles[..n + 1][..n] == roles[..n];
      var role := Strip(roles[n]);
      if role != "" {
        if role !in d.roles {
          CleanedHas(roles);
          return None;
        }
        if role !in chosen {
          chosen := chosen + [role];
        }
      }
    }
    assert roles[..|roles|] == roles;
    return Some(chosen);
  }

  lemma {:induction false} DollarsConcat(a: string, b: string)
    ensures Dollars(a + b) == Dollars(a) + Dollars(b)
  {
    if a == "" {
      assert a + b == b;
    } else {
      assert (a + b)[1..] == a[1..] + b;
      DollarsConcat(a[1..], b);
    }
  }

  lemma {:induction false} NoDollars(s: string)
    requires '$' !in s
    ensures Dollars(s) == 0
  {
    if s != "" {
      NoDollars(s[1..]);
    }
  }

  /** Adding a part without dollars behind a dollar adds one dollar. */
  lemma OnePart(front: string, part: string)
    requires '$' !in part
    ensures Dollars(front + "$" + part) == Dollars(front) + 1
  {
    DollarsConcat(front, "$");
    DollarsConcat(front + "$", part);
    NoDollars(part);
    assert Dollars("$") == 1;
  }

  lemma FourParts(a: string, b: string, c: string, d: string)
    requires '$' !in a && '$' !in b && '$' !in c && '$' !in d
    ensures Dollars(a + "$" + b + "$" + c + "$" + d) == 3
  {
    NoDollars(a);
    OnePart(a, b);
    OnePart(a + "$" + b, c);
    OnePart(a + "$" + b + "$" + c, d);
  }

  lemma EndsTrimmed(front: string, digest: Hex)
    requires front != "" && !IsBlank(front[0])
    ensures Trimmed(front + "$" + digest)
  {
    assert digest != "" ==> digest[|digest| - 1] in digest;
  }

  /** A new hash has the format that validation asks for. */
  lemma HashIsWellFormed(salt: Hex, digest: Hex)
    ensures HashText(salt, digest) != "" && Trimmed(HashText(salt, digest)) && Dollars(HashText(salt, digest)) == 3
  {
    FourParts(ALGORITHM, ITERATIONS, salt, digest);
    EndsTrimmed(ALGORITHM + "$" + ITERATIONS + "$" + salt, digest);
  }
}
