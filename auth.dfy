/** Sign-in with credentials (auth.ts): the address is looked up in the administrator table
    before the donor table, the password is compared against the stored hash, and the role and
    id travel from the signed-in user into the token and from the token into the session. */
module Auth {

  import opened Wrappers
  import opened Text
  import opened Schema

  /** `UserWithRole`: a row of either table as the credential check sees it. */
  datatype UserWithRole = UserWithRole(id: string, name: string, email: string,
                                       password: Option<string>, role: Role)

  /** What `authorize` hands to the session layer: the same, without the password. */
  datatype AuthUser = AuthUser(id: string, name: string, email: string, role: Role)

  predicate IsAdminAddress(users: seq<AdminUser>, email: string)
  {
    exists i :: 0 <= i < |users| && users[i].email == email
  }

  predicate IsDonorAddress(donors: seq<Donor>, email: string)
  {
    exists i :: 0 <= i < |donors| && donors[i].email == email
  }

  /** The first administrator with the address, by table order. */
  function FirstAdmin(users: seq<AdminUser>, email: string): (k: nat)
    requires IsAdminAddress(users, email)
    ensures k < |users| && users[k].email == email
    ensures forall j :: 0 <= j < k ==> users[j].email != email
  {
    if users[0].email == email then 0
    else
      assert IsAdminAddress(users[1..], email) by {
        var i :| 0 <= i < |users| && users[i].email == email;
        assert users[1..][i - 1] == users[i];
      }
      1 + FirstAdmin(users[1..], email)
  }

  /** The first donor with the address, by table order. */
  function FirstDonor(donors: seq<Donor>, email: string): (k: nat)
    requires IsDonorAddress(donors, email)
    ensures k < |donors| && donors[k].email == email
    ensures forall j :: 0 <= j < k ==> donors[j].email != email
  {
    if donors[0].email == email then 0
    else
      assert IsDonorAddress(donors[1..], email) by {
        var i :| 0 <= i < |donors| && donors[i].email == email;
        assert donors[1..][i - 1] == donors[i];
      }
      1 + FirstDonor(donors[1..], email)
  }

  function AdminAsUser(u: AdminUser): UserWithRole
  {
    UserWithRole(IntToDecimal(u.id), u.name, u.email, u.passwordHash, AdminRole)
  }

  function DonorAsUser(d: Donor): UserWithRole
  {
    UserWithRole(IntToDecimal(d.id), d.name, d.email, d.passwordHash, DonorRole)
  }

  /** `getUser(email)`. `lookupFails` stands for a query that throws, which the catch turns
      into null. */
  function GetUser(users: seq<AdminUser>, donors: seq<Donor>, email: string, lookupFails: bool)
    : (r: Option<UserWithRole>)
    ensures lookupFails ==> r.None?
    // The administrator table is consulted first: an address in both tables is an administrator.
    ensures !lookupFails && IsAdminAddress(users, email) ==>
              r.Some? && r.value.role == AdminRole && r.value.email == email
    ensures !lookupFails && !IsAdminAddress(users, email) && IsDonorAddress(donors, email) ==>
              r.Some? && r.value.role == DonorRole && r.value.email == email
    ensures !IsAdminAddress(users, email) && !IsDonorAddress(donors, email) ==> r.None?
    // The user carries the id, name and password hash of the row that matched.
    ensures r.Some? && r.value.role == AdminRole ==>
              exists i :: 0 <= i < |users| && users[i].email == email && r.value == AdminAsUser(users[i])
    ensures r.Some? && r.value.role == DonorRole ==>
              exists i :: 0 <= i < |donors| && donors[i].email == email && r.value == DonorAsUser(donors[i])
  {
    if lookupFails then None
    else if IsAdminAddress(users, email) then Some(AdminAsUser(users[FirstAdmin(users, email)]))
    else if IsDonorAddress(donors, email) then Some(DonorAsUser(donors[FirstDonor(donors, email)]))
    else None
  }

  /** The credentials schema: an address the email check accepts and a password of at least
      six characters. */
  predicate CredentialsValid(email: Option<string>, password: Option<string>, isEmail: string -> bool)
  {
    email.Some? && password.Some? && isEmail(email.value) && |password.value| >= 6
  }

  /** `authorize(credentials)`. `isEmail` is the schema library's address check and
      `compare(password, hash)` the password hash comparison. */
  function Authorize(users: seq<AdminUser>, donors: seq<Donor>, lookupFails: bool,
                     email: Option<string>, password: Option<string>,
                     isEmail: string -> bool, compare: (string, string) -> bool)
    : (r: Option<AuthUser>)
    // Malformed credentials are refused whatever the tables hold.
    ensures !CredentialsValid(email, password, isEmail) ==> r.None?
    ensures CredentialsValid(email, password, isEmail) ==>
              var u := GetUser(users, donors, email.value, lookupFails);
              && (u.None? ==> r.None?)
              && (u.Some? && Blank(u.value.password) ==> r.None?)
              && (u.Some? && !Blank(u.value.password) ==>
                    (r.Some? <==> compare(password.value, u.value.password.value)))
    // A signed-in user is the looked-up user without the password.
    ensures r.Some? ==>
              && CredentialsValid(email, password, isEmail)
              && var u := GetUser(users, donors, email.value, lookupFails);
              && u.Some? && !Blank(u.value.password)
              && compare(password.value, u.value.password.value)
              && r.value == AuthUser(u.value.id, u.value.name, u.value.email, u.value.role)
  {
    if !CredentialsValid(email, password, isEmail) then None
    else
      var u := GetUser(users, donors, email.value, lookupFails);
      if u.None? then None
      else if Blank(u.value.password) then None
      else if compare(password.value, u.value.password.value) then
        Some(AuthUser(u.value.id, u.value.name, u.value.email, u.value.role))
      else None
  }

  /** An address registered as both administrator and donor always signs in as administrator. */
  lemma AdminTakesPrecedence(users: seq<AdminUser>, donors: seq<Donor>, lookupFails: bool,
                             email: Option<string>, password: Option<string>,
                             isEmail: string -> bool, compare: (string, string) -> bool)
    requires email.Some? && IsAdminAddress(users, email.value) && IsDonorAddress(donors, email.value)
    requires Authorize(users, donors, lookupFails, email, password, isEmail, compare).Some?
    ensures Authorize(users, donors, lookupFails, email, password, isEmail, compare).value.role == AdminRole
  {
  }

  /** The id a signed-in user carries is the decimal text of the row's key, which
      `parseInt(session.user.id)` in the handlers turns back into that key. */
  lemma SignedInIdParses(users: seq<AdminUser>, donors: seq<Donor>, email: string, lookupFails: bool)
    requires forall i :: 0 <= i < |users| ==> users[i].id >= 0
    requires forall i :: 0 <= i < |donors| ==> donors[i].id >= 0
    requires GetUser(users, donors, email, lookupFails).Some?
    ensures var u := GetUser(users, donors, email, lookupFails).value;
            && (forall i :: 0 <= i < |u.id| ==> IsDigit(u.id[i]))
            && (u.role == AdminRole ==> exists i :: 0 <= i < |users| && users[i].email == email &&
                                                   DecimalValue(u.id) == users[i].id)
            && (u.role == DonorRole ==> exists i :: 0 <= i < |donors| && donors[i].email == email &&
                                                   DecimalValue(u.id) == donors[i].id)
  {
    var u := GetUser(users, donors, email, lookupFails).value;
    if u.role == AdminRole {
      var i :| 0 <= i < |users| && users[i].email == email && u == AdminAsUser(users[i]);
      DecimalRoundTrip(users[i].id);
    } else {
      var i :| 0 <= i < |donors| && donors[i].email == email && u == DonorAsUser(donors[i]);
      DecimalRoundTrip(donors[i].id);
    }
  }

  /** The JWT the session cookie carries; the callbacks write into it. */
  class JwtToken {
    var role: Option<Role>
    var id: Option<string>

    constructor ()
      ensures role.None? && id.None?
    {
      role, id := None, None;
    }
  }

  /** `session.user` as the session callback sees it. */
  class SessionUser {
    var role: Option<Role>
    var id: Option<string>

    constructor ()
      ensures role.None? && id.None?
    {
      role, id := None, None;
    }
  }

  /** The `jwt` callback: role and id are copied only at sign-in, when a user is present. */
  method Jwt(token: JwtToken, user: Option<AuthUser>)
    modifies token
    ensures user.Some? ==> token.role == Some(user.value.role) && token.id == Some(user.value.id)
    ensures user.None? ==> token.role == old(token.role) && token.id == old(token.id)
  {
    if user.Some? {
      token.role := Some(user.value.role);
      token.id := Some(user.value.id);
    }
  }

  /** The `session` callback: role and id are copied only when the session has a user and the
      token a role. */
  method SessionFromToken(user: Option<SessionUser>, token: JwtToken)
    modifies if user.Some? then {user.value} else {}
    ensures user.Some? && token.role.Some? ==>
              user.value.role == token.role && user.value.id == token.id
    ensures user.Some? && token.role.None? ==>
              user.value.role == old(user.value.role) && user.value.id == old(user.value.id)
  {
    if user.Some? && token.role.Some? {
      user.value.role := token.role;
      user.value.id := token.id;
    }
  }

  /** A credentials sign-in followed by the two callbacks: the session ends up with the role
      and id of the user `authorize` accepted. */
  method SignIn(users: seq<AdminUser>, donors: seq<Donor>, lookupFails: bool,
                email: Option<string>, password: Option<string>,
                isEmail: string -> bool, compare: (string, string) -> bool,
                token: JwtToken, user: SessionUser) returns (r: Option<AuthUser>)
    modifies token, user
    ensures r == Authorize(users, donors, lookupFails, email, password, isEmail, compare)
    ensures r.Some? ==> user.role == Some(r.value.role) && user.id == Some(r.value.id)
    ensures r.None? ==>
              token.role == old(token.role) && token.id == old(token.id) &&
              (old(token.role).Some? ==> user.role == old(token.role) && user.id == old(token.id))
  {
    r := Authorize(users, donors, lookupFails, email, password, isEmail, compare);
    Jwt(token, r);
    SessionFromToken(Some(user), token);
  }
}
