/**
 The security document: roles with their permissions and users with their roles, and its validation,
 which rejects it or returns its normal form.
 */
module SecurityDocuments {
  import opened Text
  import opened Responses

  datatype User = User(roles: seq<string>, enabled: bool, passwordHash: string)

  /** A role is its list of permissions; an empty hash stands for a user without one. */
  datatype Document = Document(roles: map<string, seq<string>>, users: map<string, User>)

  const ALL_PERMISSIONS := {"monitor_access", "admin_access", "services_manage", "security_manage"}

  // ---------------------------------------------------------------------------
  // Cleaned lists
  // ---------------------------------------------------------------------------

  /** Each item trimmed, first occurrences only. */
  function Cleaned(items: seq<string>): seq<string> {
    if items == [] then []
    else
      var front := Cleaned(items[..|items| - 1]);
      var last := Strip(items[|items| - 1]);
      if last in front then front else front + [last]
  }

  lemma {:induction false} CleanedHas(items: seq<string>)
    ensures forall i :: 0 <= i < |items| ==> Strip(items[i]) in Cleaned(items)
    ensures forall x :: x in Cleaned(items) ==> exists i :: 0 <= i < |items| && Strip(items[i]) == x
    ensures Unique(Cleaned(items)) && AllTrimmed(Cleaned(items))
  {
    if items != [] {
      var n := |items| - 1;
      CleanedHas(items[..n]);
      StripTrims(items[n]);
      var front := Cleaned(items[..n]);
      assert forall i :: 0 <= i < n ==> items[..n][i] == items[i];
      assert (front + [Strip(items[n])])[..|front|] == front;
    }
  }

  predicate AllTrimmed(s: seq<string>) {
    forall x :: x in s ==> Trimmed(x)
  }

  lemma {:induction false} CleanStaysClean(s: seq<string>)
    requires Unique(s) && AllTrimmed(s)
    ensures Cleaned(s) == s
  {
    if s != [] {
      var n := |s| - 1;
      CleanStaysClean(s[..n]);
      StripTrims(s[n]);
      assert s == s[..n] + [s[n]];
    }
  }

  lemma CleanedIsClean(items: seq<string>)
    ensures AllTrimmed(Cleaned(items)) && Unique(Cleaned(items)) && Cleaned(Cleaned(items)) == Cleaned(items)
  {
    CleanedHas(items);
    CleanStaysClean(Cleaned(items));
  }

  // ---------------------------------------------------------------------------
  // Validation
  // ---------------------------------------------------------------------------

  predicate Within(items: seq<string>, allowed: set<string>) {
    forall x :: x in items ==> x in allowed
  }

  function Dollars(s: string): nat {
    if s == "" then 0 else (if s[0] == '$' then 1 else 0) + Dollars(s[1..])
  }

  predicate HashFormat(hash: string) {
    hash == "" || Dollars(hash) == 3
  }

  predicate RolesPass(A: set<string>, d: Document) {
    forall r :: r in d.roles ==> Within(Cleaned(d.roles[r]), A)
  }

  predicate UserPasses(d: Document, u: User) {
    Within(Cleaned(u.roles), d.roles.Keys) && HashFormat(Strip(u.passwordHash))
  }

  predicate UsersPass(d: Document) {
    forall name :: name in d.users ==> UserPasses(d, d.users[name])
  }

  function NormalUser(u: User): User {
    User(Cleaned(u.roles), u.enabled, Strip(u.passwordHash))
  }

  function Normal(d: Document): Document {
    Document(map r | r in d.roles :: Cleaned(d.roles[r]), map name | name in d.users :: NormalUser(d.users[name]))
  }

  /** The normal form of a document, given the set of known permissions; None when it is rejected. */
  function Validate(A: set<string>, d: Document): Option<Document> {
    if RolesPass(A, d) && UsersPass(d) then Some(Normal(d)) else None
  }

  /** Cleans a list whose every item must be allowed. */
  method CheckList(items: seq<string>, allowed: set<string>) returns (r: Option<seq<string>>)
    ensures r == if Within(Cleaned(items), allowed) then Some(Cleaned(items)) else None
  {
    var cleaned: seq<string> := [];
    for n := 0 to |items|
      invariant cleaned == Cleaned(items[..n]) && Within(cleaned, allowed)
    {
      var item := Strip(items[n]);
      assert items[..n + 1][..n] == items[..n];
      if item !in allowed {
        CleanedHas(items);
        return None;
      }
      if item !in cleaned {
        cleaned := cleaned + [item];
      }
    }
    assert items[..|items|] == items;
    return Some(cleaned);
  }

  method ValidateRoles(A: set<string>, d: Document) returns (r: Option<map<string, seq<string>>>)
    ensures r == if RolesPass(A, d) then Some(Normal(d).roles) else None
  {
    var normalized: map<string, seq<string>> := map[];
    var todo := d.roles.Keys;
    while todo != {}
      invariant todo <= d.roles.Keys && normalized.Keys == d.roles.Keys - todo
      invariant forall k :: k in normalized ==> Within(Cleaned(d.roles[k]), A) && normalized[k] == Cleaned(d.roles[k])
    {
      var name :| name in todo;
      var permissions := CheckList(d.roles[name], A);
      if permissions == None {
        return None;
      }
      normalized := normalized[name := permissions.value];
      todo := todo - {name};
    }
    assert normalized.Keys == d.roles.Keys;
    assert normalized == Normal(d).roles;
    return Some(normalized);
  }

  method ValidateUsers(d: Document) returns (r: Option<map<string, User>>)
    ensures r == if UsersPass(d) then Some(Normal(d).users) else None
  {
    var normalized: map<string, User> := map[];
    var todo := d.users.Keys;
    while todo != {}
      invariant todo <= d.users.Keys && normalized.Keys == d.users.Keys - todo
      invariant forall k :: k in normalized ==> UserPasses(d, d.users[k]) && normalized[k] == NormalUser(d.users[k])
    {
      var name :| name in todo;
      var user := d.users[name];
      var roles := CheckList(user.roles, d.roles.Keys);
      if roles == None {
        assert !UserPasses(d, d.users[name]);
        return None;
      }
      var hash := Strip(user.passwordHash);
      if hash != "" && Dollars(hash) != 3 {
        assert !UserPasses(d, d.users[name]);
        return None;
      }
      normalized := normalized[name := User(roles.value, user.enabled, hash)];
      todo := todo - {name};
    }
    assert normalized.Keys == d.users.Keys;
    assert normalized == Normal(d).users;
    return Some(normalized);
  }

  method ValidateSecurityDocument(A: set<string>, d: Document) returns (r: Option<Document>)
    ensures r == Validate(A, d)
  {
    var roles := ValidateRoles(A, d);
    if roles == None {
      return None;
    }
    var users := ValidateUsers(d);
    if users == None {
      return None;
    }
    return Some(Document(roles.value, users.value));
  }

  // ---------------------------------------------------------------------------
  // What validation guarantees
  // ---------------------------------------------------------------------------

  predicate SoundUser(d: Document, u: User) {
    && Within(u.roles, d.roles.Keys) && Unique(u.roles) && AllTrimmed(u.roles)
    && Trimmed(u.passwordHash) && HashFormat(u.passwordHash)
  }

  /** Only known permissions, only defined roles, no repetitions, nothing to trim, hashes well formed. */
  predicate Sound(A: set<string>, d: Document) {
    && (forall r :: r in d.roles ==> Within(d.roles[r], A) && Unique(d.roles[r]) && AllTrimmed(d.roles[r]))
    && (forall name :: name in d.users ==> SoundUser(d, d.users[name]))
  }

  lemma SoundRolesPass(A: set<string>, d: Document)
    requires Sound(A, d)
    ensures RolesPass(A, d) && Normal(d).roles == d.roles
  {
    forall r | r in d.roles
      ensures Cleaned(d.roles[r]) == d.roles[r]
    {
      CleanStaysClean(d.roles[r]);
    }
  }

  lemma SoundUserPasses(d: Document, u: User)
    requires SoundUser(d, u)
    ensures UserPasses(d, u) && NormalUser(u) == u
  {
    CleanStaysClean(u.roles);
    StripTrims(u.passwordHash);
  }

  lemma SoundPasses(A: set<string>, d: Document)
    requires Sound(A, d)
    ensures Validate(A, d) == Some(d)
  {
    SoundRolesPass(A, d);
    forall name | name in d.users
      ensures UserPasses(d, d.users[name]) && NormalUser(d.users[name]) == d.users[name]
    {
      SoundUserPasses(d, d.users[name]);
    }
    assert Normal(d).users == d.users;
  }

  lemma NormalIsSound(A: set<string>, d: Document)
    requires Validate(A, d).Some?
    ensures Sound(A, Normal(d))
  {
    forall r | r in d.roles
      ensures AllTrimmed(Normal(d).roles[r]) && Unique(Normal(d).roles[r])
    {
      CleanedIsClean(d.roles[r]);
    }
    forall name | name in d.users
      ensures SoundUser(Normal(d), Normal(d).users[name])
    {
      assert UserPasses(d, d.users[name]);
      CleanedIsClean(d.users[name].roles);
      StripTrims(d.users[name].passwordHash);
    }
  }

  /** Validation returns sound documents, leaves sound documents alone, and so is idempotent. */
  lemma ValidationTheorem(A: set<string>, d: Document)
    ensures Sound(A, d) <==> Validate(A, d) == Some(d)
    ensures Validate(A, d).Some? ==>
              Sound(A, Validate(A, d).value) && Validate(A, Validate(A, d).value) == Validate(A, d)
  {
    if Sound(A, d) {
      SoundPasses(A, d);
    }
    if Validate(A, d).Some? {
      NormalIsSound(A, d);
      SoundPasses(A, Normal(d));
    }
  }
}
