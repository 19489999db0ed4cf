/** User accounts: the `User` record and its role predicates, the user
    manager's guards and defaults, the create and change-password
    serializers, and the account views (visibility by role, login,
    password change, listing by role, a role's permissions).

    Password hashing is not modelled: a stored password is the secret
    itself, `None` standing for Django's unusable password. Token keys are
    random in the source and are parameters here. */
module Accounts {
  import opened Wrappers
  import opened Text
  import Seqs

  datatype Role = Admin | Institution | SectorHealth | SectorEducation | LocalManager | Contributor | Viewer {
    function Value(): string {
      match this
      case Admin => "admin"
      case Institution => "institution"
      case SectorHealth => "sector_health"
      case SectorEducation => "sector_education"
      case LocalManager => "local_manager"
      case Contributor => "contributor"
      case Viewer => "viewer"
    }
  }

  datatype Status = Active | Inactive | AwaitingApproval | Suspended {
    function Value(): string {
      match this
      case Active => "active"
      case Inactive => "inactive"
      case AwaitingApproval => "pending"
      case Suspended => "suspended"
    }
  }

  /** A `User` row. Territories are ids; `lastLoginAt` is a timestamp. */
  datatype User = User(
    id: nat,
    email: string,
    firstName: string,
    lastName: string,
    role: Role,
    status: Status,
    region: Option<nat>,
    department: Option<nat>,
    commune: Option<nat>,
    lastLoginAt: Option<int>,
    isStaff: bool,
    isActive: bool,
    isSuperuser: bool,
    password: Option<string>)

  // ---------------------------------------------------------------------------
  // The model's derived attributes
  // ---------------------------------------------------------------------------

  predicate IsAdmin(u: User) { u.role == Admin }
  predicate IsInstitution(u: User) { u.role == Institution }
  predicate IsSectorUser(u: User) { u.role == SectorHealth || u.role == SectorEducation }
  predicate IsLocalManager(u: User) { u.role == LocalManager }
  predicate IsContributor(u: User) { u.role == Contributor }

  /** The four single-role predicates are exclusive, and a sector user has
      none of them. */
  lemma RolePredicatesExclusive(u: User)
    ensures (if IsAdmin(u) then 1 else 0) + (if IsInstitution(u) then 1 else 0)
          + (if IsLocalManager(u) then 1 else 0) + (if IsContributor(u) then 1 else 0) <= 1
    ensures IsSectorUser(u) ==> !IsAdmin(u) && !IsInstitution(u) && !IsLocalManager(u) && !IsContributor(u)
  {
  }

  /** `get_full_name`: the first name, a space, the last name. */
  function FullName(u: User): (r: string)
    ensures |r| == |u.firstName| + 1 + |u.lastName|
    ensures r[..|u.firstName|] == ShortName(u) && r[|u.firstName|] == ' ' && r[|u.firstName| + 1..] == u.lastName
  {
    u.firstName + " " + u.lastName
  }

  /** `get_short_name`. */
  function ShortName(u: User): string {
    u.firstName
  }

  /** The fields a caller may pass to the manager beyond the required ones;
      `None` is a field not passed. */
  datatype Extra = Extra(isStaff: Option<bool>, isSuperuser: Option<bool>, isActive: Option<bool>,
                         role: Option<Role>, status: Option<Status>)

  /** A user as `self.model(...)` builds it: the given fields, every other
      field at its model default (role VIEWER, status PENDING, active, not
      staff, not superuser, never logged in, no territory). */
  function NewUser(id: nat, email: string, first: string, last: string, password: Option<string>, extra: Extra): (u: User)
    ensures u.id == id && u.email == email && u.firstName == first && u.lastName == last && u.password == password
    ensures u.role == extra.role.GetOr(Viewer) && u.status == extra.status.GetOr(AwaitingApproval)
    ensures u.isStaff == extra.isStaff.GetOr(false) && u.isSuperuser == extra.isSuperuser.GetOr(false)
    ensures u.isActive == extra.isActive.GetOr(true)
    ensures u.lastLoginAt.None? && u.region.None? && u.department.None? && u.commune.None?
  {
    User(id, email, first, last, extra.role.GetOr(Viewer), extra.status.GetOr(AwaitingApproval),
      None, None, None, None, extra.isStaff.GetOr(false), extra.isActive.GetOr(true), extra.isSuperuser.GetOr(false),
      password)
  }

  // ---------------------------------------------------------------------------
  // The user manager
  // ---------------------------------------------------------------------------

  /** The `ValueError`s the manager raises, and the database's refusal of
      a second account with the same email. */
  datatype ManagerError = EmailRequired | FirstNameRequired | LastNameRequired
                        | StaffRequired | SuperuserRequired | EmailTaken

  /** The three guards of `create_user`, in order. */
  function MissingField(email: string, first: string, last: string): (r: Option<ManagerError>)
    ensures r.None? <==> email != "" && first != "" && last != ""
    ensures r == Some(EmailRequired) <==> email == ""
    ensures r == Some(FirstNameRequired) <==> email != "" && first == ""
    ensures r == Some(LastNameRequired) <==> email != "" && first != "" && last == ""
  {
    if email == "" then Some(EmailRequired)
    else if first == "" then Some(FirstNameRequired)
    else if last == "" then Some(LastNameRequired)
    else None
  }

  predicate EmailInUse(users: seq<User>, email: string) {
    exists i :: 0 <= i < |users| && users[i].email == email
  }

  /** `create_user`: the guards, then a new row with the normalised email
      (the unique email column refuses a second one). `normalize` is
      `normalize_email`, whose code is not part of this model. */
  function CreatedUser(users: seq<User>, email: string, first: string, last: string, password: Option<string>,
                       extra: Extra, normalize: string -> string): (r: Result<seq<User>, ManagerError>)
    ensures MissingField(email, first, last).Some? ==> r == Err(MissingField(email, first, last).value)
    ensures MissingField(email, first, last).None? && EmailInUse(users, normalize(email)) ==> r == Err(EmailTaken)
    ensures r.Ok? ==> |r.value| == |users| + 1 && r.value[..|users|] == users
    ensures r.Ok? ==> var u := r.value[|users|];
      && u.email == normalize(email) && !EmailInUse(users, u.email)
      && u.firstName == first && u.lastName == last && u.password == password
      && u.role == extra.role.GetOr(Viewer) && u.status == extra.status.GetOr(AwaitingApproval)
  {
    if MissingField(email, first, last).Some? then Err(MissingField(email, first, last).value)
    else if EmailInUse(users, normalize(email)) then Err(EmailTaken)
    else Ok(users + [NewUser(|users|, normalize(email), first, last, password, extra)])
  }

  /** The `setdefault`s and the two checks of `create_superuser`. */
  function SuperuserExtra(extra: Extra): (r: Result<Extra, ManagerError>)
    ensures r.Ok? <==> extra.isStaff != Some(false) && extra.isSuperuser != Some(false)
    ensures r.Err? ==> r.error == (if extra.isStaff == Some(false) then StaffRequired else SuperuserRequired)
    ensures r.Ok? ==> r.value == Extra(Some(true), Some(true), Some(extra.isActive.GetOr(true)),
                                      Some(extra.role.GetOr(Admin)), Some(extra.status.GetOr(Active)))
  {
    if extra.isStaff == Some(false) then Err(StaffRequired)
    else if extra.isSuperuser == Some(false) then Err(SuperuserRequired)
    else Ok(Extra(Some(true), Some(true), Some(extra.isActive.GetOr(true)),
                  Some(extra.role.GetOr(Admin)), Some(extra.status.GetOr(Active))))
  }

  /** A superuser created with no extra fields is an active admin staff
      member with every permission. */
  lemma DefaultSuperuser(users: seq<User>, email: string, first: string, last: string, password: Option<string>,
                         normalize: string -> string)
    requires email != "" && first != "" && last != "" && !EmailInUse(users, normalize(email))
    ensures var none := Extra(None, None, None, None, None);
      && SuperuserExtra(none).Ok?
      && var r := CreatedUser(users, email, first, last, password, SuperuserExtra(none).value, normalize);
      && r.Ok? && var u := r.value[|users|];
      && u.role == Admin && u.status == Active && u.isStaff && u.isSuperuser && u.isActive
  {
  }

  /** `UserManager.active()`: exactly the users whose status is active and
      whose account is enabled, in order. */
  function ActiveUsers(users: seq<User>): (r: seq<User>)
    ensures forall i :: 0 <= i < |r| ==> r[i] in users && r[i].status == Active && r[i].isActive
    ensures forall i :: 0 <= i < |users| && users[i].status == Active && users[i].isActive ==> users[i] in r
  {
    Seqs.Where(users, (u: User) => u.status == Active && u.isActive)
  }

  // ---------------------------------------------------------------------------
  // The serializers
  // ---------------------------------------------------------------------------

  /** The role a choice value names, if any. */
  function RoleNamed(s: string): (r: Option<Role>)
    ensures r.Some? ==> r.value.Value() == s
    ensures r.None? ==> forall x: Role :: x.Value() != s
  {
    if s == "admin" then Some(Admin)
    else if s == "institution" then Some(Institution)
    else if s == "sector_health" then Some(SectorHealth)
    else if s == "sector_education" then Some(SectorEducation)
    else if s == "local_manager" then Some(LocalManager)
    else if s == "contributor" then Some(Contributor)
    else if s == "viewer" then Some(Viewer)
    else None
  }

  /** `validate_role`: the legacy plural is read as `viewer`. */
  function ValidateRole(value: string): (r: string)
    ensures value == "viewers" ==> r == Viewer.Value()
    ensures value != "viewers" ==> r == value
  {
    if value == "viewers" then Viewer.Value() else value
  }

  /** The `role` field as the serializer framework runs it: the choice
      check of the model field first, then `validate_role` on the value
      that passed it. */
  function RoleFieldAsWritten(value: string): (r: Option<Role>)
    ensures r.Some? ==> r.value.Value() == value
  {
    match RoleNamed(value)
    case None => None
    case Some(role) => RoleNamed(ValidateRole(role.Value()))
  }

  /** The legacy payload never reaches `validate_role`: the choice check
      refuses it first. */
  lemma LegacyViewersRefused()
    ensures RoleFieldAsWritten("viewers").None?
  {
  }

  /** The role field with the legacy mapping applied before the choice
      check, as the comment on `validate_role` intends. */
  function RoleField(value: string): (r: Option<Role>)
    ensures value == "viewers" ==> r == Some(Viewer)
    ensures value != "viewers" ==> r == RoleFieldAsWritten(value)
  {
    RoleNamed(ValidateRole(value))
  }

  /** Every role's own value is still accepted. */
  lemma RoleFieldAcceptsRoles(role: Role)
    ensures RoleField(role.Value()) == Some(role)
    ensures RoleFieldAsWritten(role.Value()) == Some(role)
  {
  }

  /** A required `CharField`: present, trimmed, not blank, and at least
      `minLength` characters once trimmed. */
  function PasswordField(raw: Option<string>, minLength: nat): (r: Option<string>)
    ensures r.Some? <==> raw.Some? && Strip(raw.value) != "" && |Strip(raw.value)| >= minLength
    ensures r.Some? ==> r.value == Strip(raw.value)
  {
    if raw.None? then None
    else
      var v := Strip(raw.value);
      if v == "" || |v| < minLength then None else Some(v)
  }

  /** The minimum length of a new password, at creation and at change. */
  const MinPasswordLength := 8

  datatype PasswordChange = PasswordChange(oldPassword: string, newPassword: string)

  /** `ChangePasswordSerializer` validation: each field first, then
      `validate`, which refuses two different new passwords. `None` is an
      invalid payload (a 400 response). */
  function ChangePasswordData(oldRaw: Option<string>, newRaw: Option<string>, confirmRaw: Option<string>): (r: Option<PasswordChange>)
    ensures r.Some? <==>
      && PasswordField(oldRaw, 0).Some? && PasswordField(newRaw, MinPasswordLength).Some?
      && PasswordField(confirmRaw, 0).Some? && PasswordField(newRaw, 0) == PasswordField(confirmRaw, 0)
    ensures r.Some? ==> |r.value.newPassword| >= MinPasswordLength && r.value.newPassword == Strip(confirmRaw.value)
  {
    var o := PasswordField(oldRaw, 0);
    var n := PasswordField(newRaw, MinPasswordLength);
    var c := PasswordField(confirmRaw, 0);
    if o.None? || n.None? || c.None? then None
    else if n.value != c.value then None
    else Some(PasswordChange(o.value, n.value))
  }

  /** Two different new passwords are always refused, whatever their length. */
  lemma MismatchRefused(oldRaw: Option<string>, newPassword: string, confirm: string)
    requires Strip(newPassword) != Strip(confirm)
    ensures ChangePasswordData(oldRaw, Some(newPassword), Some(confirm)).None?
  {
  }

  /** The validated fields of `UserCreateSerializer`, the password among them. */
  datatype Signup = Signup(email: string, firstName: string, lastName: string, password: string,
                           role: Role, status: Status, region: Option<nat>, department: Option<nat>, commune: Option<nat>)

  /** A `Permission` row: a role's actions on one resource. */
  datatype Permission = Permission(role: Role, resource: string, actions: seq<string>)

  /** An authentication token. */
  datatype Token = Token(key: string, user: nat)

  /** The tokens a user holds. */
  function TokensOf(tokens: seq<Token>, user: nat): (r: seq<Token>)
    ensures forall i :: 0 <= i < |r| ==> r[i] in tokens && r[i].user == user
    ensures forall i :: 0 <= i < |tokens| && tokens[i].user == user ==> tokens[i] in r
  {
    Seqs.Where(tokens, (t: Token) => t.user == user)
  }

  /** `Token.objects.filter(user=user).delete()` then `create`. */
  function RegeneratedTokens(tokens: seq<Token>, user: nat, key: string): seq<Token> {
    Seqs.Where(tokens, (t: Token) => t.user != user) + [Token(key, user)]
  }

  /** After the regeneration the user holds exactly the new token. */
  lemma RegeneratedTokenUnique(tokens: seq<Token>, user: nat, key: string)
    ensures TokensOf(RegeneratedTokens(tokens, user, key), user) == [Token(key, user)]
  {
    var kept := Seqs.Where(tokens, (t: Token) => t.user != user);
    var all := kept + [Token(key, user)];
    assert all[..|all| - 1] == kept;
    NoTokensLeft(tokens, user);
  }

  /** Dropping a user's tokens leaves them none. */
  lemma {:induction false} NoTokensLeft(tokens: seq<Token>, user: nat)
    ensures TokensOf(Seqs.Where(tokens, (t: Token) => t.user != user), user) == []
  {
    if tokens != [] {
      var init := tokens[..|tokens| - 1];
      NoTokensLeft(init, user);
      var kept := Seqs.Where(init, (t: Token) => t.user != user);
      var last := tokens[|tokens| - 1];
      if last.user != user {
        assert (kept + [last])[..|kept + [last]| - 1] == kept;
      }
    }
  }

  /** The regeneration keeps every other user's tokens. */
  lemma RegeneratedTokensKeepOthers(tokens: seq<Token>, user: nat, key: string, other: nat)
    requires other != user
    ensures TokensOf(RegeneratedTokens(tokens, user, key), other) == TokensOf(tokens, other)
  {
    var kept := Seqs.Where(tokens, (t: Token) => t.user != user);
    var all := kept + [Token(key, user)];
    assert all[..|all| - 1] == kept;
    KeptTokens(tokens, user, other);
  }

  /** Dropping one user's tokens leaves another user's as they were. */
  lemma {:induction false} KeptTokens(tokens: seq<Token>, user: nat, other: nat)
    requires other != user
    ensures TokensOf(Seqs.Where(tokens, (t: Token) => t.user != user), other) == TokensOf(tokens, other)
  {
    if tokens != [] {
      var init := tokens[..|tokens| - 1];
      KeptTokens(init, user, other);
      var kept := Seqs.Where(init, (t: Token) => t.user != user);
      var last := tokens[|tokens| - 1];
      if last.user != user {
        assert (kept + [last])[..|kept + [last]| - 1] == kept;
      }
    }
  }

  // ---------------------------------------------------------------------------
  // The views
  // ---------------------------------------------------------------------------

  /** The roles an institution user sees: its own level and below. */
  predicate InstitutionScope(r: Role) {
    r == Institution || r == SectorHealth || r == SectorEducation || r == LocalManager || r == Contributor
  }

  /** `UserViewSet.get_queryset`: an admin sees every user, an institution
      user the roles of its scope, anyone else only their own account. */
  function VisibleUsers(requester: User, users: seq<User>): (r: seq<User>)
    ensures IsAdmin(requester) ==> r == users
    ensures IsInstitution(requester) ==>
      && (forall i :: 0 <= i < |r| ==> r[i] in users && InstitutionScope(r[i].role))
      && (forall i :: 0 <= i < |users| && InstitutionScope(users[i].role) ==> users[i] in r)
    ensures !IsAdmin(requester) && !IsInstitution(requester) ==>
      && (forall i :: 0 <= i < |r| ==> r[i] in users && r[i].id == requester.id)
      && (forall i :: 0 <= i < |users| && users[i].id == requester.id ==> users[i] in r)
  {
    if IsAdmin(requester) then users
    else if IsInstitution(requester) then Seqs.Where(users, (u: User) => InstitutionScope(u.role))
    else Seqs.Where(users, (u: User) => u.id == requester.id)
  }

  /** No one but an admin sees an admin or a viewer other than themselves. */
  lemma AdminsHidden(requester: User, users: seq<User>, i: nat)
    requires !IsAdmin(requester) && i < |VisibleUsers(requester, users)|
    requires VisibleUsers(requester, users)[i].role == Admin || VisibleUsers(requester, users)[i].role == Viewer
    ensures VisibleUsers(requester, users)[i].id == requester.id
  {
  }

  /** `by_role`: 400 without the parameter, otherwise the visible users
      whose role has that value. */
  function UsersByRole(requester: User, users: seq<User>, role: string): (r: Result<seq<User>, int>)
    ensures r.Err? <==> role == ""
    ensures r.Err? ==> r.error == 400
    ensures r.Ok? ==> forall i :: 0 <= i < |r.value| ==> r.value[i] in VisibleUsers(requester, users) && r.value[i].role.Value() == role
    ensures r.Ok? ==> forall u :: u in VisibleUsers(requester, users) && u.role.Value() == role ==> u in r.value
  {
    if role == "" then Err(400)
    else
      var visible := VisibleUsers(requester, users);
      var found := Seqs.Where(visible, (u: User) => u.role.Value() == role);
      assert forall u :: u in visible ==> exists i :: 0 <= i < |visible| && visible[i] == u;
      Ok(found)
  }

  /** `PermissionViewSet.my_permissions`: the rows for the requester's role. */
  function MyPermissions(requester: User, permissions: seq<Permission>): (r: seq<Permission>)
    ensures forall i :: 0 <= i < |r| ==> r[i] in permissions && r[i].role == requester.role
    ensures forall i :: 0 <= i < |permissions| && permissions[i].role == requester.role ==> permissions[i] in r
  {
    Seqs.Where(permissions, (p: Permission) => p.role == requester.role)
  }

  /** `authenticate(email, password)` with the model backend: the account
      with that email, if its password matches and it is enabled. */
  function Authenticate(users: seq<User>, email: string, password: string): (r: Option<nat>)
    ensures r.Some? ==>
      && r.value < |users| && users[r.value].email == email
      && users[r.value].password == Some(password) && users[r.value].isActive
      && forall j :: 0 <= j < r.value ==> users[j].email != email
    ensures r.None? ==>
      forall i :: 0 <= i < |users| && users[i].email == email && (forall j :: 0 <= j < i ==> users[j].email != email) ==>
        users[i].password != Some(password) || !users[i].isActive
  {
    match Seqs.FirstIndex(users, (u: User) => u.email == email)
    case None => None
    case Some(i) => if users[i].password == Some(password) && users[i].isActive then Some(i) else None
  }

  /** The users and tokens tables. */
  class UserStore {
    var users: seq<User>
    var tokens: seq<Token>

    constructor(users: seq<User>, tokens: seq<Token>)
      ensures this.users == users && this.tokens == tokens
    {
      this.users := users;
      this.tokens := tokens;
    }

    /** `UserManager.create_user`. */
    method CreateUser(email: string, first: string, last: string, password: Option<string>, extra: Extra,
                      normalize: string -> string) returns (r: Result<nat, ManagerError>)
      modifies this
      ensures var c := CreatedUser(old(users), email, first, last, password, extra, normalize);
        && (c.Ok? ==> r == Ok(|old(users)|) && users == c.value)
        && (c.Err? ==> r == Err(c.error) && users == old(users))
      ensures tokens == old(tokens)
    {
      var c := CreatedUser(users, email, first, last, password, extra, normalize);
      if c.Err? {
        return Err(c.error);
      }
      r := Ok(|users|);
      users := c.value;
    }

    /** `UserManager.create_superuser`. */
    method CreateSuperuser(email: string, first: string, last: string, password: Option<string>, extra: Extra,
                           normalize: string -> string) returns (r: Result<nat, ManagerError>)
      modifies this
      ensures SuperuserExtra(extra).Err? ==> r == Err(SuperuserExtra(extra).error) && users == old(users)
      ensures SuperuserExtra(extra).Ok? ==>
        var c := CreatedUser(old(users), email, first, last, password, SuperuserExtra(extra).value, normalize);
        && (c.Ok? ==> r == Ok(|old(users)|) && users == c.value)
        && (c.Err? ==> r == Err(c.error) && users == old(users))
      ensures tokens == old(tokens)
    {
      var e := SuperuserExtra(extra);
      if e.Err? {
        return Err(e.error);
      }
      r := CreateUser(email, first, last, password, e.value, normalize);
    }

    /** `UserCreateSerializer.create`: the row is created from every field
      but the password, which is then set through `set_password`. The
      manager's guards and email normalisation are bypassed. The
      serializer's validation has already refused an email in use (the
      unique email field) and a password shorter than eight characters. */
    method CreateFromSignup(data: Signup) returns (id: nat)
      requires !EmailInUse(users, data.email) && |data.password| >= MinPasswordLength
      modifies this
      ensures id == |old(users)| && |users| == id + 1 && users[..id] == old(users)
      ensures forall i :: 0 <= i < id ==> users[i].email != users[id].email
      ensures users[id] == User(id, data.email, data.firstName, data.lastName, data.role, data.status,
        data.region, data.department, data.commune, None, false, true, false, Some(data.password))
      ensures tokens == old(tokens)
    {
      id := |users|;
      var u := User(id, data.email, data.firstName, data.lastName, data.role, data.status,
        data.region, data.department, data.commune, None, false, true, false, None);
      users := users + [u];
      users := users[id := users[id].(password := Some(data.password))];
    }

    /** `update_last_login`: only `last_login_at` changes. */
    method UpdateLastLogin(i: nat, now: int)
      requires i < |users|
      modifies this
      ensures users == old(users)[i := old(users)[i].(lastLoginAt := Some(now))]
      ensures tokens == old(tokens)
    {
      users := users[i := users[i].(lastLoginAt := Some(now))];
    }

    /** `login`: 401 for bad credentials, 403 for an account whose status
      is not active; otherwise the login time is stamped and the user's
      token is fetched or created with `newKey`. */
    method Login(email: string, password: string, now: int, newKey: string) returns (code: int, key: Option<string>)
      modifies this
      ensures var a := Authenticate(old(users), email, password);
        && (a.None? ==> code == 401 && key.None? && users == old(users) && tokens == old(tokens))
        && (a.Some? && old(users)[a.value].status != Active ==>
              code == 403 && key.None? && users == old(users) && tokens == old(tokens))
        && (a.Some? && old(users)[a.value].status == Active ==>
              && code == 200 && key.Some?
              && users == old(users)[a.value := old(users)[a.value].(lastLoginAt := Some(now))]
              && var uid := old(users)[a.value].id;
              && (TokensOf(old(tokens), uid) != [] ==> tokens == old(tokens) && key.value == TokensOf(old(tokens), uid)[0].key)
              && (TokensOf(old(tokens), uid) == [] ==> tokens == old(tokens) + [Token(newKey, uid)] && key.value == newKey))
    {
      var a := Authenticate(users, email, password);
      if a.None? {
        return 401, None;
      }
      if users[a.value].status != Active {
        return 403, None;
      }
      UpdateLastLogin(a.value, now);
      var uid := users[a.value].id;
      var mine := TokensOf(tokens, uid);
      if mine != [] {
        key := Some(mine[0].key);
      } else {
        tokens := tokens + [Token(newKey, uid)];
        key := Some(newKey);
      }
      code := 200;
    }

    /** `change_password` for the requester at position `me`: 400 with
      nothing changed for an invalid payload or a wrong old password;
      otherwise the new password is stored and the requester's tokens are
      replaced by one new token. */
    method ChangePassword(me: nat, oldRaw: Option<string>, newRaw: Option<string>, confirmRaw: Option<string>, newKey: string)
      returns (code: int)
      requires me < |users|
      modifies this
      ensures var d := ChangePasswordData(oldRaw, newRaw, confirmRaw);
        && (d.None? || old(users)[me].password != Some(d.value.oldPassword) ==>
              code == 400 && users == old(users) && tokens == old(tokens))
        && (d.Some? && old(users)[me].password == Some(d.value.oldPassword) ==>
              && code == 200
              && users == old(users)[me := old(users)[me].(password := Some(d.value.newPassword))]
              && tokens == RegeneratedTokens(old(tokens), old(users)[me].id, newKey))
    {
      var d := ChangePasswordData(oldRaw, newRaw, confirmRaw);
      if d.None? {
        return 400;
      }
      if users[me].password != Some(d.value.oldPassword) {
        return 400;
      }
      users := users[me := users[me].(password := Some(d.value.newPassword))];
      tokens := RegeneratedTokens(tokens, users[me].id, newKey);
      code := 200;
    }
  }
}
