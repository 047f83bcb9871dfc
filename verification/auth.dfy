/**
  The mock authentication context (`contexts/AuthContext.tsx`): the signed-in
  user, the loading flag, and the login, register, logout and profile-update
  transitions. Simulated latency is not modelled (each transition is
  immediate), the clock-derived user id is a parameter, and the browser
  storage is reduced to what a restore reads back.
 */
module Auth {
  import opened Optional
  import opened Text

  /** A user. The role is kept as the text the program compares
      ("farmer", "admin", "officer"); the optional fields may be absent. */
  datatype User = User(
    id: string,
    email: string,
    name: string,
    role: string,
    phone: Option<string>,
    aadharNumber: Option<string>,
    state: Option<string>,
    district: Option<string>)

  datatype AuthState = AuthState(user: Option<User>, isLoading: bool)

  /** The provider before the session check: nobody signed in, loading. */
  const Initial := AuthState(None, true)

  const Farmer := "farmer"
  const Admin := "admin"
  const Officer := "officer"

  /** `isAuthenticated` is `!!user`. */
  predicate IsAuthenticated(s: AuthState)
  {
    s.user.Some?
  }

  /** The mount-time session check: a stored token and stored user data
      restore that user; loading ends either way. `savedUser` is the stored
      user data as parsed (`None` when absent). */
  function RestoreSession(token: Option<string>, savedUser: Option<User>): (s: AuthState)
    ensures !s.isLoading
    ensures IsAuthenticated(s) <==> token.Some? && token.value != "" && savedUser.Some?
    ensures IsAuthenticated(s) ==> s.user == savedUser
  {
    if token.Some? && token.value != "" && savedUser.Some? then AuthState(savedUser, false)
    else AuthState(None, false)
  }

  /** The mock credential check: a non-empty email containing "@" and a non-empty password. */
  predicate AcceptsCredentials(email: string, password: string)
  {
    email != "" && password != "" && Includes(email, "@")
  }

  /** The credential check is exactly: email has an "@", password is not empty. */
  lemma AcceptsCredentialsIff(email: string, password: string)
    ensures AcceptsCredentials(email, password) <==> '@' in email && password != ""
  {
    IncludesChar(email, '@');
    assert "@" == ['@'];
  }

  /** The role derived from the email: "admin" anywhere wins, then "officer",
      otherwise a farmer. */
  function RoleFor(email: string): string
  {
    if Includes(email, "admin") || email == "admin@example.com" then Admin
    else if Includes(email, "officer") || email == "officer@example.com" then Officer
    else Farmer
  }

  /** The display name: fixed for admins, officers and the demo farmer,
      otherwise the part before the first "@" with its first letter
      upper-cased. */
  function NameFor(email: string): string
  {
    if Includes(email, "admin") || email == "admin@example.com" then "Admin User"
    else if Includes(email, "officer") || email == "officer@example.com" then "Government Officer"
    else if email == "farmer@example.com" then "Rajesh Kumar"
    else Capitalize(Split(email, '@')[0])
  }

  /** The role check is ordered: an email naming both "admin" and "officer" is an admin. */
  lemma RolePriority(email: string)
    ensures RoleFor(email) == Admin <==> Includes(email, "admin")
    ensures RoleFor(email) == Officer <==> !Includes(email, "admin") && Includes(email, "officer")
    ensures RoleFor(email) == Farmer <==> !Includes(email, "admin") && !Includes(email, "officer")
  {
    if email == "admin@example.com" {
      assert email[..5] == "admin";
      assert StartsWith(email, "admin");
    }
    if email == "officer@example.com" {
      assert email[..7] == "officer";
      assert StartsWith(email, "officer");
    }
  }

  /** For an ordinary address the name is its local part, capitalised. */
  lemma NameFromLocalPart(local: string, domain: string)
    requires '@' !in local
    requires var email := local + "@" + domain;
      !Includes(email, "admin") && !Includes(email, "officer") && email != "farmer@example.com"
    ensures NameFor(local + "@" + domain) == Capitalize(local)
  {
    SplitAtSeparator(local, '@', domain);
    assert local + "@" + domain == local + ['@'] + domain;
  }

  /** The user a successful login creates. */
  function MockUser(email: string, id: string): (u: User)
    ensures u.email == email && u.id == id
    ensures u.role == RoleFor(email) && u.name == NameFor(email)
    ensures u.state == Some("Delhi") && u.district == Some("New Delhi")
  {
    User(id, email, NameFor(email), RoleFor(email),
      Some("+91 9876543210"), Some("1234-5678-9012"), Some("Delhi"), Some("New Delhi"))
  }

  /** `login(email, password)`: the new state and the returned flag. A
      refused login leaves the user as it was; loading ends either way. */
  function Login(s: AuthState, email: string, password: string, id: string): (r: (AuthState, bool))
    ensures !r.0.isLoading
    ensures r.1 <==> AcceptsCredentials(email, password)
    ensures r.1 ==> r.0.user == Some(MockUser(email, id))
    ensures !r.1 ==> r.0.user == s.user
  {
    if AcceptsCredentials(email, password) then (AuthState(Some(MockUser(email, id)), false), true)
    else (s.(isLoading := false), false)
  }

  /** The registration form's data as handed to the context. */
  datatype RegisterData = RegisterData(
    name: string,
    email: string,
    password: string,
    phone: string,
    aadharNumber: string,
    state: string,
    district: string,
    role: string)

  /** `register(data)`: always succeeds (there is no duplicate check) and
      signs in a user carrying exactly the submitted fields; the password is
      not kept. */
  function Register(s: AuthState, data: RegisterData, id: string): (r: (AuthState, bool))
    ensures r.1 && IsAuthenticated(r.0) && !r.0.isLoading
    ensures var u := r.0.user.value;
      u.id == id && u.email == data.email && u.name == data.name && u.role == data.role
      && u.phone == Some(data.phone) && u.aadharNumber == Some(data.aadharNumber)
      && u.state == Some(data.state) && u.district == Some(data.district)
  {
    var u := User(id, data.email, data.name, data.role,
      Some(data.phone), Some(data.aadharNumber), Some(data.state), Some(data.district));
    (AuthState(Some(u), false), true)
  }

  /** `logout()`: nobody is signed in afterwards; loading is untouched. */
  function Logout(s: AuthState): (r: AuthState)
    ensures !IsAuthenticated(r) && r.isLoading == s.isLoading
  {
    s.(user := None)
  }

  /** A partial user for `updateProfile`; `None` means the key is absent. */
  datatype UserPatch = UserPatch(
    id: Option<string>,
    email: Option<string>,
    name: Option<string>,
    role: Option<string>,
    phone: Option<string>,
    aadharNumber: Option<string>,
    state: Option<string>,
    district: Option<string>)

  const EmptyPatch := UserPatch(None, None, None, None, None, None, None, None)

  /** A present optional key replaces the value; an absent one keeps it. */
  function Over<T>(current: Option<T>, patched: Option<T>): Option<T>
  {
    if patched.Some? then patched else current
  }

  /** `{ ...user, ...patch }`. */
  function Merge(u: User, p: UserPatch): (m: User)
    ensures m.id == p.id.GetOr(u.id) && m.email == p.email.GetOr(u.email)
    ensures m.name == p.name.GetOr(u.name) && m.role == p.role.GetOr(u.role)
    ensures m.phone == Over(u.phone, p.phone) && m.aadharNumber == Over(u.aadharNumber, p.aadharNumber)
    ensures m.state == Over(u.state, p.state) && m.district == Over(u.district, p.district)
  {
    User(p.id.GetOr(u.id), p.email.GetOr(u.email), p.name.GetOr(u.name), p.role.GetOr(u.role),
      Over(u.phone, p.phone), Over(u.aadharNumber, p.aadharNumber),
      Over(u.state, p.state), Over(u.district, p.district))
  }

  /** An empty patch changes nothing, and applying the same patch twice is
      the same as once. */
  lemma MergeLaws(u: User, p: UserPatch)
    ensures Merge(u, EmptyPatch) == u
    ensures Merge(Merge(u, p), p) == Merge(u, p)
  {
  }

  /** `updateProfile(patch)`: refused without a signed-in user (nothing
      changes), otherwise the patch is merged into the user. */
  function UpdateProfile(s: AuthState, p: UserPatch): (r: (AuthState, bool))
    ensures !r.1 <==> !IsAuthenticated(s)
    ensures !r.1 ==> r.0 == s
    ensures r.1 ==> r.0.user == Some(Merge(s.user.value, p)) && !r.0.isLoading
  {
    if s.user.None? then (s, false)
    else (AuthState(Some(Merge(s.user.value, p)), false), true)
  }

  /** Logging in after logging out depends only on the credentials. */
  lemma LoginAfterLogout(s: AuthState, email: string, password: string, id: string)
    ensures Login(Logout(s), email, password, id).1 == Login(s, email, password, id).1
    ensures !Login(s, email, password, id).1 ==> !IsAuthenticated(Login(Logout(s), email, password, id).0)
  {
  }
}
