/** The users of the administration pages and the password check that guards
    them. Password hashing is an outside function: `Verifies(hash, password)`
    stands for Argon2's verification, true when the password matches the
    stored hash and false where Argon2 raises a mismatch.
 */
module Accounts {
  import opened Options
  import opened Text

  datatype User = User(email: string, passwordHash: string, admin: bool)

  type Verifier = (string, string) -> bool

  /** How the e-mail column compares: byte for byte, or under SQLite's
      NOCASE collation, which folds the ASCII letters only. */
  datatype Collation = Binary | NoCase

  predicate SameEmail(c: Collation, a: string, b: string) {
    match c
    case Binary => a == b
    case NoCase => Upper(a) == Upper(b)
  }

  /** users[i] is the first user whose e-mail matches. */
  predicate FirstMatch(users: seq<User>, email: string, c: Collation, i: int) {
    0 <= i < |users| && SameEmail(c, users[i].email, email)
    && forall j :: 0 <= j < i ==> !SameEmail(c, users[j].email, email)
  }

  /** `select(User).where(User.email == email)`, first row or None. */
  function FindUser(users: seq<User>, email: string, c: Collation): (r: Option<User>)
    ensures r.None? <==> forall i :: 0 <= i < |users| ==> !SameEmail(c, users[i].email, email)
    ensures r.Some? ==> exists i :: FirstMatch(users, email, c, i) && users[i] == r.value
  {
    if users == [] then None
    else if SameEmail(c, users[0].email, email) then Some(users[0])
    else
      var r := FindUser(users[1..], email, c);
      if r.Some? then
        var i :| FirstMatch(users[1..], email, c, i) && users[1..][i] == r.value;
        assert FirstMatch(users, email, c, i + 1) && users[i + 1] == r.value;
        r
      else r
  }

  /** Under NOCASE an e-mail differing only in the case of its letters finds
      the user; compared byte for byte it does not. */
  lemma FindUserNoCase()
    ensures var users := [User("Admin@x.gr", "h", true)];
      FindUser(users, "admin@X.GR", NoCase) == Some(users[0]) && FindUser(users, "admin@X.GR", Binary).None?
  {
    var users := [User("Admin@x.gr", "h", true)];
    assert Upper("Admin@x.gr") == "ADMIN@X.GR";
    assert Upper("admin@X.GR") == "ADMIN@X.GR";
    assert "Admin@x.gr" != "admin@X.GR" by { assert "Admin@x.gr"[0] != "admin@X.GR"[0]; }
  }

  /** E-mail addresses are unique among the users under the collation. */
  predicate UniqueEmails(users: seq<User>, c: Collation) {
    forall i, j :: 0 <= i < j < |users| ==> !SameEmail(c, users[i].email, users[j].email)
  }

  /** `authenticate(email, password)` as the SQLAlchemy storages write it:
      false for an unknown user or a password mismatch, true otherwise. */
  function Authenticate(users: seq<User>, email: string, password: string, verifies: Verifier, c: Collation): (r: bool)
    requires UniqueEmails(users, c)
    ensures r <==> exists i :: 0 <= i < |users| && SameEmail(c, users[i].email, email) && verifies(users[i].passwordHash, password)
  {
    match FindUser(users, email, c)
    case None => false
    case Some(u) => verifies(u.passwordHash, password)
  }

  /** `authenticate` of the older SQL service, whose e-mail column has the
      NOCASE collation and which falls off the end of the function after a
      successful verification: Python then returns None. Some(false) on an
      unknown user or a mismatch, None on success. */
  function AuthenticateAsWritten(users: seq<User>, email: string, password: string, verifies: Verifier): (r: Option<bool>)
    ensures r != Some(true)
    ensures r.None? <==> exists i :: FirstMatch(users, email, NoCase, i) && verifies(users[i].passwordHash, password)
  {
    match FindUser(users, email, NoCase)
    case None => Some(false)
    case Some(u) =>
      assert forall j :: FirstMatch(users, email, NoCase, j) ==> users[j] == u by {
        forall j | FirstMatch(users, email, NoCase, j)
          ensures users[j] == u
        {
          var i :| FirstMatch(users, email, NoCase, i) && users[i] == u;
          FirstMatchUnique(users, email, NoCase, i, j);
        }
      }
      if verifies(u.passwordHash, password) then None else Some(false)
  }

  /** At most one user is the first to match. */
  lemma FirstMatchUnique(users: seq<User>, email: string, c: Collation, i: int, j: int)
    requires FirstMatch(users, email, c, i) && FirstMatch(users, email, c, j)
    ensures i == j
  {
  }

  /** Python's truth value of the result: None and False are both false. */
  predicate Truthy(r: Option<bool>) {
    r == Some(true)
  }

  /** The as-written check never lets anyone in: the admin login's
      `if not authenticate(...)` rejects even a user whose password matches,
      while the corrected check admits exactly those users. */
  lemma AuthenticateAsWrittenRejectsAll(users: seq<User>, email: string, password: string, verifies: Verifier)
    ensures !Truthy(AuthenticateAsWritten(users, email, password, verifies))
    ensures UniqueEmails(users, NoCase) ==>
      (AuthenticateAsWritten(users, email, password, verifies).None? <==> Authenticate(users, email, password, verifies, NoCase))
  {
  }

  /** A concrete case: the one user with the right password is refused by the as-written check and admitted by the corrected one. */
  lemma AuthenticateCounterexample()
    ensures var users := [User("admin@example.com", "h", true)];
      var verifies := (h: string, p: string) => h == "h" && p == "secret";
      !Truthy(AuthenticateAsWritten(users, "admin@example.com", "secret", verifies))
      && Authenticate(users, "admin@example.com", "secret", verifies, NoCase)
  {
    var users := [User("admin@example.com", "h", true)];
    var verifies := (h: string, p: string) => h == "h" && p == "secret";
    assert users[0].email == "admin@example.com" && verifies(users[0].passwordHash, "secret");
  }
}
