/**
  The admin authentication decisions of the backend: credential validation,
  the `admin_required` guard and `get_current_admin`. Token verification is
  abstract: a request either carries a token that verifies, with the admin id
  it names, or verification raises.
 */
module Auth {
  import opened Wrappers
  import opened Json
  import opened Models

  /** The outcome of `verify_jwt_in_request()` followed by `get_jwt_identity()`. */
  datatype TokenCheck = Verified(identity: int) | VerifyFailed

  /** `AdminUser.query.get(id)`: the admin whose primary key is `id`, if any. */
  function FindAdminById(admins: seq<AdminUser>, id: int): (r: Option<AdminUser>)
    ensures r.Some? ==> r.value in admins && r.value.id == id
    ensures r.None? <==> forall a :: a in admins ==> a.id != id
  {
    if admins == [] then None
    else if admins[0].id == id then Some(admins[0])
    else FindAdminById(admins[1..], id)
  }

  predicate ActiveNamed(a: AdminUser, username: string) {
    a.username == username && a.isActive
  }

  /**
    `AdminUser.query.filter_by(username=username, is_active=True).first()`,
    as the position of that row in the table.
   */
  function FirstActive(admins: seq<AdminUser>, username: string): (r: Option<nat>)
    ensures r.Some? ==> r.value < |admins| && ActiveNamed(admins[r.value], username)
    ensures r.Some? ==> forall j :: 0 <= j < r.value ==> !ActiveNamed(admins[j], username)
    ensures r.None? <==> forall j :: 0 <= j < |admins| ==> !ActiveNamed(admins[j], username)
  {
    if admins == [] then None
    else if ActiveNamed(admins[0], username) then Some(0)
    else match FirstActive(admins[1..], username)
      case None => None
      case Some(k) => Some(k + 1)
  }

  /**
    `validate_admin_credentials(username, password)`: the first active admin with
    this username, and only if the password checks against that admin's hash.
   */
  function ValidateAdminCredentials(ps: PasswordScheme, admins: seq<AdminUser>,
                                    username: string, password: string): (r: Option<AdminUser>)
    ensures r.Some? ==> r.value in admins && r.value.username == username && r.value.isActive
    ensures r.Some? ==> CheckPassword(ps, r.value, password)
    ensures r.Some? <==> FirstActive(admins, username).Some?
                         && CheckPassword(ps, admins[FirstActive(admins, username).value], password)
    ensures r.Some? ==> r.value == admins[FirstActive(admins, username).value]
  {
    match FirstActive(admins, username)
    case None => None
    case Some(k) => if CheckPassword(ps, admins[k], password) then Some(admins[k]) else None
  }

  /** The guard either lets the wrapped handler run or answers by itself. */
  datatype Guard = Proceed | Deny(response: Response)

  const InactiveAdmin := "Invalid or inactive admin user"
  const AuthenticationRequired := "Authentication required"

  /** The guard's 401 replies carry only an `error` key. */
  function Unauthorized(message: string): Response {
    Response(401, map["error" := JStr(message)])
  }

  /**
    `admin_required`: the handler runs exactly when the token verifies and names
    an admin that exists and is active; otherwise the reply is a 401 naming why.
   */
  function AdminRequired(auth: TokenCheck, admins: seq<AdminUser>): (g: Guard)
    ensures g.Proceed? <==> auth.Verified? && FindAdminById(admins, auth.identity).Some?
                            && FindAdminById(admins, auth.identity).value.isActive
    ensures auth.VerifyFailed? ==> g == Deny(Unauthorized(AuthenticationRequired))
    ensures auth.Verified? && g.Deny? ==> g == Deny(Unauthorized(InactiveAdmin))
  {
    match auth
    case VerifyFailed => Deny(Unauthorized(AuthenticationRequired))
    case Verified(id) =>
      match FindAdminById(admins, id)
      case None => Deny(Unauthorized(InactiveAdmin))
      case Some(a) => if a.isActive then Proceed else Deny(Unauthorized(InactiveAdmin))
  }

  /**
    `get_current_admin()`: the admin the token names, or None when verification
    raises; unlike the guard it does not look at `is_active`.
   */
  function GetCurrentAdmin(auth: TokenCheck, admins: seq<AdminUser>): (r: Option<AdminUser>)
    ensures auth.VerifyFailed? ==> r.None?
    ensures r.Some? ==> r.value in admins && r.value.id == auth.identity
    ensures auth.Verified? && r.None? ==> forall a :: a in admins ==> a.id != auth.identity
  {
    match auth
    case VerifyFailed => None
    case Verified(id) => FindAdminById(admins, id)
  }

  /** A request the guard lets through always has a current admin, and it is active. */
  lemma GuardedHasCurrentAdmin(auth: TokenCheck, admins: seq<AdminUser>)
    requires AdminRequired(auth, admins).Proceed?
    ensures GetCurrentAdmin(auth, admins).Some? && GetCurrentAdmin(auth, admins).value.isActive
  {
  }
}
