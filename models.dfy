/**
  The two database records of the backend, `ContactSubmission` and `AdminUser`,
  their column defaults, their `to_dict` serialisers and the password contract.
  Datetimes are integer timestamps (seconds); `isoformat()` is represented by
  the timestamp itself.
 */
module Models {
  import opened Wrappers
  import opened Json

  type Timestamp = int

  /** One row of the `contact_submissions` table. */
  datatype ContactSubmission = ContactSubmission(
    id: int,
    name: string,
    email: string,
    service: string,
    message: string,
    submittedAt: Timestamp,
    isRead: bool,
    ipAddress: Option<string>)

  /** One row of the `admin_users` table. */
  datatype AdminUser = AdminUser(
    id: int,
    username: string,
    passwordHash: string,
    email: string,
    createdAt: Timestamp,
    lastLogin: Option<Timestamp>,
    isActive: bool)

  /** A new submission as the ORM inserts it: `submitted_at` and `is_read` take their column defaults. */
  function NewContactSubmission(id: int, name: string, email: string, service: string,
                                message: string, ipAddress: Option<string>, now: Timestamp): (r: ContactSubmission)
    ensures !r.isRead && r.submittedAt == now
    ensures r.id == id && r.name == name && r.email == email && r.service == service
    ensures r.message == message && r.ipAddress == ipAddress
  {
    ContactSubmission(id, name, email, service, message, now, false, ipAddress)
  }

  /** A new admin with a password hash: `created_at`, `last_login` and `is_active` take their column defaults. */
  function NewAdminUser(id: int, username: string, email: string, passwordHash: string, now: Timestamp): (r: AdminUser)
    ensures r.isActive && r.lastLogin == None && r.createdAt == now
    ensures r.id == id && r.username == username && r.email == email && r.passwordHash == passwordHash
  {
    AdminUser(id, username, passwordHash, email, now, None, true)
  }

  const ContactKeys: set<string> :=
    {"id", "name", "email", "service", "message", "submitted_at", "is_read", "ip_address"}

  const AdminKeys: set<string> :=
    {"id", "username", "email", "created_at", "last_login", "is_active"}

  function OptionalString(v: Option<string>): Json {
    match v
    case None => JNull
    case Some(s) => JStr(s)
  }

  /** `ContactSubmission.to_dict()`: exactly the eight columns, each under its own key. */
  function ContactToDict(c: ContactSubmission): (d: map<string, Json>)
    ensures d.Keys == ContactKeys
    ensures d["id"] == JInt(c.id) && d["is_read"] == JBool(c.isRead)
    ensures d["name"] == JStr(c.name) && d["email"] == JStr(c.email)
    ensures d["service"] == JStr(c.service) && d["message"] == JStr(c.message)
    ensures d["submitted_at"] == JInt(c.submittedAt)
    ensures d["ip_address"] == JNull <==> c.ipAddress == None
    ensures c.ipAddress.Some? ==> d["ip_address"] == JStr(c.ipAddress.value)
  {
    map["id" := JInt(c.id), "name" := JStr(c.name), "email" := JStr(c.email),
        "service" := JStr(c.service), "message" := JStr(c.message),
        "submitted_at" := JInt(c.submittedAt), "is_read" := JBool(c.isRead),
        "ip_address" := OptionalString(c.ipAddress)]
  }

  /**
    `AdminUser.to_dict()`: six keys and never the password hash; `last_login`
    is null exactly when the admin has never logged in.
   */
  function AdminToDict(a: AdminUser): (d: map<string, Json>)
    ensures d.Keys == AdminKeys
    ensures "password_hash" !in d
    ensures d["last_login"] == JNull <==> a.lastLogin == None
    ensures a.lastLogin.Some? ==> d["last_login"] == JInt(a.lastLogin.value)
    ensures d["id"] == JInt(a.id) && d["username"] == JStr(a.username)
    ensures d["is_active"] == JBool(a.isActive)
    ensures d["email"] == JStr(a.email) && d["created_at"] == JInt(a.createdAt)
  {
    map["id" := JInt(a.id), "username" := JStr(a.username), "email" := JStr(a.email),
        "created_at" := JInt(a.createdAt),
        "last_login" := (if a.lastLogin.Some? then JInt(a.lastLogin.value) else JNull),
        "is_active" := JBool(a.isActive)]
  }

  /**
    The password hashing library as two functions: `hashpw(password, salt)` and
    `checkpw(password, hash)`. The salt `gensalt()` would draw at random is a parameter.
   */
  datatype PasswordScheme = PasswordScheme(
    hashpw: (string, string) -> string,
    checkpw: (string, string) -> bool)

  /** The one property the backend relies on: a password checks against any hash made from it. */
  ghost predicate Sound(ps: PasswordScheme) {
    forall p, salt :: ps.checkpw(p, ps.hashpw(p, salt))
  }

  /** `AdminUser.check_password(password)`. */
  predicate CheckPassword(ps: PasswordScheme, a: AdminUser, password: string): (ok: bool)
    ensures Sound(ps) && (exists salt :: a.passwordHash == ps.hashpw(password, salt)) ==> ok
  {
    ps.checkpw(password, a.passwordHash)
  }

  /**
    `AdminUser.set_password(password)` on the record: only the hash changes, and
    with a sound scheme the same password then passes `check_password`.
   */
  function WithPassword(a: AdminUser, ps: PasswordScheme, password: string, salt: string): (r: AdminUser)
    ensures r.(passwordHash := a.passwordHash) == a
    ensures Sound(ps) ==> CheckPassword(ps, r, password)
  {
    a.(passwordHash := ps.hashpw(password, salt))
  }
}
