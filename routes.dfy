/**
  The HTTP handlers of the backend and the two tables they act on. The class
  `Api` holds the `contact_submissions` rows in id order, the id the next insert
  receives and the `admin_users` rows. Everything the handlers cannot see is a
  parameter: the decoded request body (None when `request.get_json()` raises),
  the email validator, the password library, the token check, the clock, the
  client address and whether `db.session.commit()` succeeds.
 */
module Routes {
  import opened Wrappers
  import opened Json
  import opened Strings
  import opened Models
  import opened Auth

  // ----- submit_contact: the ordered validator -----

  const RequiredFields: seq<string> := ["name", "email", "service", "message"]
  const MinMessageLength: nat := 10
  const ProcessingError := "An error occurred while processing your request"
  const InvalidEmailFormat := "Invalid email format"
  const MessageTooShort := "Message must be at least 10 characters long"
  const ThankYou := "Thank you for your message! We will get back to you soon."

  /** The reply for a missing field: `f'{field.capitalize()} is required'`. */
  function RequiredMessage(field: string): (m: string)
    ensures |m| == |field| + |" is required"|
    ensures m[|field|..] == " is required"
    ensures field != [] ==> m[0] == UpperChar(field[0]) && m[1..|field|] == Lower(field[1..])
  {
    var m := Capitalize(field) + " is required";
    assert m[|field|..] == " is required";
    m
  }

  /** What the test `not data.get(field) or not data[field].strip()` finds for one field. */
  datatype FieldState = Present(text: string) | Absent | NotAString

  /**
    A falsy or blank value is absent; a truthy value that is not a string makes
    `.strip()` raise; a string with a non-whitespace character is present.
   */
  function CheckField(data: map<string, Json>, field: string): (f: FieldState)
    ensures f.Present? <==> field in data && data[field].JStr? && Strip(data[field].s) != ""
    ensures f.Present? ==> f.text == data[field].s
    ensures f.NotAString? <==> field in data && Truthy(data[field]) && !data[field].JStr?
  {
    var v := GetOr(data, field, JNull);
    if !Truthy(v) then Absent
    else if v.JStr? then (if Strip(v.s) == "" then Absent else Present(v.s))
    else NotAString
  }

  /** The position of the first of `fields` that is not present, or `|fields|`. */
  function FirstNotPresent(data: map<string, Json>, fields: seq<string>): (k: nat)
    ensures k <= |fields|
    ensures forall j :: 0 <= j < k ==> CheckField(data, fields[j]).Present?
    ensures k < |fields| ==> !CheckField(data, fields[k]).Present?
  {
    if fields == [] || !CheckField(data, fields[0]).Present? then 0
    else 1 + FirstNotPresent(data, fields[1..])
  }

  /** The outcome of the loop over the required fields. */
  datatype FieldCheck = AllPresent | Missing(index: nat) | Raised(index: nat)

  /**
    The loop of `submit_contact` over `required_fields`: it stops at the first
    field that is not present, reporting whether it was absent or raised.
   */
  method CheckRequiredFields(data: map<string, Json>) returns (r: FieldCheck)
    ensures r.AllPresent? <==> forall k :: 0 <= k < |RequiredFields| ==> CheckField(data, RequiredFields[k]).Present?
    ensures r.Missing? ==> r.index < |RequiredFields| && CheckField(data, RequiredFields[r.index]).Absent?
    ensures r.Raised? ==> r.index < |RequiredFields| && CheckField(data, RequiredFields[r.index]).NotAString?
    ensures !r.AllPresent? ==> forall k :: 0 <= k < r.index ==> CheckField(data, RequiredFields[k]).Present?
  {
    for i := 0 to |RequiredFields|
      invariant forall k :: 0 <= k < i ==> CheckField(data, RequiredFields[k]).Present?
    {
      var f := CheckField(data, RequiredFields[i]);
      if f.Absent? {
        return Missing(i);
      }
      if f.NotAString? {
        return Raised(i);
      }
    }
    return AllPresent;
  }

  /** The normalised fields of a submission that passed every check. */
  datatype ContactFields = ContactFields(name: string, email: string, service: string, message: string)

  /** Why `submit_contact` refused a submission before touching the table. */
  datatype ContactError =
    | BodyNotObject             // `data.get` raises: the 500 path
    | FieldMissing(field: string)
    | FieldNotString(field: string)  // `.strip()` raises: the 500 path
    | EmailRejected
    | MessageShort

  datatype ContactDecision = Reject(error: ContactError) | Accept(fields: ContactFields)

  /** The reply for each refusal. */
  function ContactErrorResponse(e: ContactError): (r: Response)
    ensures r.code == 400 <==> e.FieldMissing? || e.EmailRejected? || e.MessageShort?
    ensures r.code == 500 <==> e.BodyNotObject? || e.FieldNotString?
    ensures r.body.Keys == {"success", "error"} && r.body["success"] == JBool(false)
    ensures e.FieldMissing? ==> r.body["error"] == JStr(RequiredMessage(e.field))
  {
    match e
    case BodyNotObject => Failure(500, ProcessingError)
    case FieldMissing(field) => Failure(400, RequiredMessage(field))
    case FieldNotString(_) => Failure(500, ProcessingError)
    case EmailRejected => Failure(400, InvalidEmailFormat)
    case MessageShort => Failure(400, MessageTooShort)
  }

  /** True when the body is a JSON object whose four required fields are present. */
  predicate FieldsPresent(body: Option<Json>) {
    body.Some? && body.value.JObject?
    && forall k :: 0 <= k < |RequiredFields| ==> CheckField(body.value.fields, RequiredFields[k]).Present?
  }

  /** `email.strip().lower()` for a body whose fields are present. */
  function NormalisedEmail(body: Option<Json>): string
    requires FieldsPresent(body)
  {
    assert CheckField(body.value.fields, RequiredFields[1]).Present?;
    Lower(Strip(body.value.fields["email"].s))
  }

  function StrippedField(body: Option<Json>, k: nat): string
    requires FieldsPresent(body) && k < |RequiredFields|
  {
    assert CheckField(body.value.fields, RequiredFields[k]).Present?;
    Strip(body.value.fields[RequiredFields[k]].s)
  }

  /**
    Everything `submit_contact` decides before it touches the table: the body
    must be a JSON object; the fields are checked in the order name, email,
    service, message; then the normalised email; then the stripped message length.
   */
  function DecideContact(body: Option<Json>, validEmail: string -> bool): (d: ContactDecision)
    ensures d.Accept? ==> FieldsPresent(body) && validEmail(d.fields.email)
    ensures d.Accept? ==> d.fields == ContactFields(StrippedField(body, 0), NormalisedEmail(body),
                                                    StrippedField(body, 2), StrippedField(body, 3))
    ensures d.Accept? ==> d.fields.name != "" && d.fields.service != "" && |d.fields.message| >= MinMessageLength
    ensures d.Reject? && (d.error.FieldMissing? || d.error.FieldNotString?) ==>
      body.Some? && body.value.JObject? && d.error.field in RequiredFields
  {
    if !(body.Some? && body.value.JObject?) then Reject(BodyNotObject)
    else
      var data := body.value.fields;
      var k := FirstNotPresent(data, RequiredFields);
      if k < |RequiredFields| then
        if CheckField(data, RequiredFields[k]).Absent? then Reject(FieldMissing(RequiredFields[k]))
        else Reject(FieldNotString(RequiredFields[k]))
      else if !validEmail(NormalisedEmail(body)) then Reject(EmailRejected)
      else if |StrippedField(body, 3)| < MinMessageLength then Reject(MessageShort)
      else Accept(ContactFields(StrippedField(body, 0), NormalisedEmail(body),
                                StrippedField(body, 2), StrippedField(body, 3)))
  }

  /** Once the fields are present, the email check comes before the length check. */
  lemma DecideWhenPresent(body: Option<Json>, validEmail: string -> bool)
    requires FieldsPresent(body)
    ensures DecideContact(body, validEmail) ==
      if !validEmail(NormalisedEmail(body)) then Reject(EmailRejected)
      else if |StrippedField(body, 3)| < MinMessageLength then Reject(MessageShort)
      else Accept(ContactFields(StrippedField(body, 0), NormalisedEmail(body),
                                StrippedField(body, 2), StrippedField(body, 3)))
  {
    assert FirstNotPresent(body.value.fields, RequiredFields) == |RequiredFields|;
  }

  /** A submission passes exactly when all four checks pass. */
  lemma AcceptIff(body: Option<Json>, validEmail: string -> bool)
    ensures DecideContact(body, validEmail).Accept? <==>
      FieldsPresent(body) && validEmail(NormalisedEmail(body)) && |StrippedField(body, 3)| >= MinMessageLength
  {
    if FieldsPresent(body) {
      assert FirstNotPresent(body.value.fields, RequiredFields) == |RequiredFields|;
    }
  }

  /**
    The first field that is absent is the one reported, whatever the later
    fields, the email validator or the message say.
   */
  lemma FirstAbsentFieldReported(body: Option<Json>, validEmail: string -> bool, k: nat)
    requires body.Some? && body.value.JObject? && k < |RequiredFields|
    requires forall j :: 0 <= j < k ==> CheckField(body.value.fields, RequiredFields[j]).Present?
    requires CheckField(body.value.fields, RequiredFields[k]).Absent?
    ensures DecideContact(body, validEmail) == Reject(FieldMissing(RequiredFields[k]))
  {
    var n := FirstNotPresent(body.value.fields, RequiredFields);
    assert n == k;
  }

  /**
    The first field that is not present being a truthy non-string is reported
    as raising (the 500 path), whatever the later fields say.
   */
  lemma {:induction false} FirstRaisingFieldReported(body: Option<Json>, validEmail: string -> bool, k: nat)
    requires body.Some? && body.value.JObject? && k < |RequiredFields|
    requires forall j :: 0 <= j < k ==> CheckField(body.value.fields, RequiredFields[j]).Present?
    requires CheckField(body.value.fields, RequiredFields[k]).NotAString?
    ensures DecideContact(body, validEmail) == Reject(FieldNotString(RequiredFields[k]))
    ensures ContactErrorResponse(DecideContact(body, validEmail).error).code == 500
  {
    var n := FirstNotPresent(body.value.fields, RequiredFields);
    assert n == k;
  }

  /**
    The message for a missing field is the field name with its first letter
    upper-cased, then " is required" ("Name is required" for "name").
   */
  lemma RequiredMessageSpelling(field: string)
    requires field != [] && NoCapitals(field[1..])
    ensures RequiredMessage(field) == [UpperChar(field[0])] + field[1..] + " is required"
  {
  }

  /** The email and message checks are reached only once every field is present. */
  lemma LaterChecksNeedFields(body: Option<Json>, validEmail: string -> bool)
    requires DecideContact(body, validEmail) in {Reject(EmailRejected), Reject(MessageShort)}
    ensures FieldsPresent(body)
    ensures DecideContact(body, validEmail) == Reject(MessageShort) ==> validEmail(NormalisedEmail(body))
  {
  }

  // ----- responses -----

  /** `{'success': True, ...}` with the given extra keys and status code. */
  function Success(code: int, extra: map<string, Json>): Response {
    Response(code, map["success" := JBool(true)] + extra)
  }

  const LoginFailed := "Login failed"
  const CredentialsRequired := "Username and password are required"
  const InvalidCredentials := "Invalid username or password"
  const SubmissionNotFound := "Submission not found"
  const DeleteFailed := "Failed to delete submission"
  const UpdateFailed := "Failed to update submission"
  const ProfileFailed := "Failed to fetch profile"
  const Deleted := "Submission deleted successfully"

  // ----- admin_login: the input checks and the credential decision -----

  datatype LoginDecision = LoginReject(response: Response) | LoginAccept(index: nat)

  /**
    What `admin_login` decides before it updates the admin: the body must be an
    object with a string (or absent) username; a blank username or a falsy
    password is a 400 before any credential lookup; a failed lookup or password
    check is a 401; a password that is not a string makes `check_password` raise.
   */
  function DecideLogin(body: Option<Json>, ps: PasswordScheme, admins: seq<AdminUser>): (d: LoginDecision)
    ensures d.LoginAccept? ==> d.index < |admins| && admins[d.index].isActive
  {
    if !(body.Some? && body.value.JObject?) then LoginReject(Failure(500, LoginFailed))
    else
      var data := body.value.fields;
      var rawName := GetOr(data, "username", JStr(""));
      var password := GetOr(data, "password", JStr(""));
      if !rawName.JStr? then LoginReject(Failure(500, LoginFailed))
      else
        var username := Strip(rawName.s);
        if username == "" || !Truthy(password) then LoginReject(Failure(400, CredentialsRequired))
        else if !password.JStr? then
          if FirstActive(admins, username).None? then LoginReject(Failure(401, InvalidCredentials))
          else LoginReject(Failure(500, LoginFailed))
        else
          match ValidateAdminCredentials(ps, admins, username, password.s)
          case None => LoginReject(Failure(401, InvalidCredentials))
          case Some(_) => LoginAccept(FirstActive(admins, username).value)
  }

  /**
    A missing or blank username, or a missing or falsy password, is refused
    with 400 whoever the admins are.
   */
  lemma LoginInputsCheckedFirst(fields: map<string, Json>, name: string, ps: PasswordScheme, admins: seq<AdminUser>)
    requires GetOr(fields, "username", JStr("")) == JStr(name)
    requires Strip(name) == "" || !Truthy(GetOr(fields, "password", JStr("")))
    ensures DecideLogin(Some(JObject(fields)), ps, admins) == LoginReject(Failure(400, CredentialsRequired))
  {
  }

  /**
    Credentials that pass the input check but do not validate are refused with
    401: a string password that fails validation, or a non-string password
    when no active admin has the username (so `check_password` is never called).
   */
  lemma LoginBadCredentials(body: Option<Json>, ps: PasswordScheme, admins: seq<AdminUser>)
    requires body.Some? && body.value.JObject?
    requires GetOr(body.value.fields, "username", JStr("")).JStr?
    requires var name := Strip(GetOr(body.value.fields, "username", JStr("")).s);
             var password := GetOr(body.value.fields, "password", JStr(""));
             name != "" && Truthy(password)
             && (if password.JStr? then ValidateAdminCredentials(ps, admins, name, password.s).None?
                 else FirstActive(admins, name).None?)
    ensures DecideLogin(body, ps, admins) == LoginReject(Failure(401, InvalidCredentials))
  {
  }

  /**
    The login answers 500 exactly when something raises: the body is not an
    object, the username is not a string, or a truthy non-string password
    reaches `check_password` of an existing active admin.
   */
  lemma LoginRaises(body: Option<Json>, ps: PasswordScheme, admins: seq<AdminUser>)
    ensures (DecideLogin(body, ps, admins).LoginReject? && DecideLogin(body, ps, admins).response.code == 500)
      <==>
      !(body.Some? && body.value.JObject?)
      || !GetOr(body.value.fields, "username", JStr("")).JStr?
      || (var name := Strip(GetOr(body.value.fields, "username", JStr("")).s);
          var password := GetOr(body.value.fields, "password", JStr(""));
          name != "" && Truthy(password) && !password.JStr? && FirstActive(admins, name).Some?)
  {
  }

  /**
    A login is accepted exactly for a string username and password that
    `validate_admin_credentials` accepts, and then for that admin's row.
   */
  lemma LoginAcceptIff(body: Option<Json>, ps: PasswordScheme, admins: seq<AdminUser>)
    requires body.Some? && body.value.JObject?
    ensures DecideLogin(body, ps, admins).LoginAccept? <==>
      var data := body.value.fields;
      var name := GetOr(data, "username", JStr(""));
      var password := GetOr(data, "password", JStr(""));
      name.JStr? && Strip(name.s) != "" && password.JStr? && password.s != "" &&
      ValidateAdminCredentials(ps, admins, Strip(name.s), password.s).Some?
    ensures DecideLogin(body, ps, admins).LoginAccept? ==>
      var name := Strip(GetOr(body.value.fields, "username", JStr("")).s);
      var password := GetOr(body.value.fields, "password", JStr("")).s;
      admins[DecideLogin(body, ps, admins).index] == ValidateAdminCredentials(ps, admins, name, password).value
  {
  }

  // ----- the read-only parts of the other handlers -----

  /** `ContactSubmission.query.get_or_404(id)`: the position of the row with this id. */
  function Lookup(subs: seq<ContactSubmission>, id: int): (r: Option<nat>)
    ensures r.Some? ==> r.value < |subs| && subs[r.value].id == id
    ensures r.None? <==> forall k :: 0 <= k < |subs| ==> subs[k].id != id
  {
    if subs == [] then None
    else if subs[0].id == id then Some(0)
    else match Lookup(subs[1..], id)
      case None => None
      case Some(k) => Some(k + 1)
  }

  /** `filter_by(is_read=False).count()`. */
  function CountUnread(subs: seq<ContactSubmission>): (n: nat)
    ensures n <= |subs|
  {
    if subs == [] then 0 else (if subs[0].isRead then 0 else 1) + CountUnread(subs[1..])
  }

  const Week: int := 7 * 24 * 60 * 60

  /** `filter(submitted_at >= since).count()`. */
  function CountSince(subs: seq<ContactSubmission>, since: Timestamp): (n: nat)
    ensures n <= |subs|
  {
    if subs == [] then 0 else (if subs[0].submittedAt >= since then 1 else 0) + CountSince(subs[1..], since)
  }

  /** `filter(submitted_at >= since)`: the submissions made at or after `since`, in table order. */
  function SubmittedSince(subs: seq<ContactSubmission>, since: Timestamp): (r: seq<ContactSubmission>)
    ensures |r| <= |subs|
    ensures forall c :: c in r <==> c in subs && c.submittedAt >= since
  {
    if subs == [] then []
    else
      var rest := SubmittedSince(subs[1..], since);
      if subs[0].submittedAt >= since then [subs[0]] + rest else rest
  }

  /** The recent count is the number of submissions made at or after the cut-off. */
  lemma {:induction false} RecentIsFilteredCount(subs: seq<ContactSubmission>, since: Timestamp)
    ensures CountSince(subs, since) == |SubmittedSince(subs, since)|
  {
    if subs != [] {
      RecentIsFilteredCount(subs[1..], since);
    }
  }

  /** One row of the service breakdown: a service and how many submissions named it. */
  datatype ServiceCount = ServiceCount(service: string, count: nat)

  /** The number of submissions naming `service`. */
  function CountService(subs: seq<ContactSubmission>, service: string): nat {
    if subs == [] then 0 else (if subs[0].service == service then 1 else 0) + CountService(subs[1..], service)
  }

  function SumCounts(b: seq<ServiceCount>): nat {
    if b == [] then 0 else b[0].count + SumCounts(b[1..])
  }

  /** How many times `service` is counted in the breakdown. */
  function CountIn(b: seq<ServiceCount>, service: string): nat {
    if b == [] then 0 else (if b[0].service == service then b[0].count else 0) + CountIn(b[1..], service)
  }

  ghost predicate DistinctServices(b: seq<ServiceCount>) {
    forall i, j :: 0 <= i < j < |b| ==> b[i].service != b[j].service
  }

  /** Counting one more submission for `service` in a breakdown. */
  function AddOne(b: seq<ServiceCount>, service: string): (r: seq<ServiceCount>)
    ensures |r| == |b| || |r| == |b| + 1
    ensures r != []
  {
    if b == [] then [ServiceCount(service, 1)]
    else if b[0].service == service then [ServiceCount(service, b[0].count + 1)] + b[1..]
    else [b[0]] + AddOne(b[1..], service)
  }

  /**
    `GROUP BY service` with `count(id)`: one row per service. The query has no
    `ORDER BY`; this model lists the services in order of first appearance.
   */
  function Breakdown(subs: seq<ContactSubmission>): (b: seq<ServiceCount>)
    ensures |b| <= |subs|
    ensures b == [] <==> subs == []
  {
    if subs == [] then [] else AddOne(Breakdown(subs[..|subs| - 1]), subs[|subs| - 1].service)
  }

  lemma {:induction false} AddOneSum(b: seq<ServiceCount>, service: string)
    ensures SumCounts(AddOne(b, service)) == SumCounts(b) + 1
  {
    if b != [] && b[0].service != service {
      AddOneSum(b[1..], service);
      assert AddOne(b, service)[1..] == AddOne(b[1..], service);
    } else if b != [] {
      assert AddOne(b, service)[1..] == b[1..];
    }
  }

  lemma {:induction false} AddOneCount(b: seq<ServiceCount>, service: string, other: string)
    ensures CountIn(AddOne(b, service), other) == CountIn(b, other) + (if service == other then 1 else 0)
  {
    if b != [] && b[0].service != service {
      AddOneCount(b[1..], service, other);
      assert AddOne(b, service)[1..] == AddOne(b[1..], service);
    } else if b != [] {
      assert AddOne(b, service)[1..] == b[1..];
    }
  }

  lemma {:induction false} AddOneDistinct(b: seq<ServiceCount>, service: string)
    requires DistinctServices(b)
    ensures DistinctServices(AddOne(b, service))
    ensures forall x :: x in AddOne(b, service) ==> x.service == service || x in b
  {
    if b != [] && b[0].service != service {
      AddOneDistinct(b[1..], service);
      var r := AddOne(b, service);
      assert r == [b[0]] + AddOne(b[1..], service);
      forall i, j | 0 <= i < j < |r| ensures r[i].service != r[j].service {
        if i == 0 {
          assert r[j] in AddOne(b[1..], service);
        }
      }
    }
  }

  lemma {:induction false} CountServiceSnoc(subs: seq<ContactSubmission>, service: string)
    requires subs != []
    ensures CountService(subs, service) ==
      CountService(subs[..|subs| - 1], service) + (if subs[|subs| - 1].service == service then 1 else 0)
  {
    if |subs| > 1 {
      CountServiceSnoc(subs[1..], service);
      assert subs[1..][..|subs| - 2] == subs[..|subs| - 1][1..];
    }
  }

  /** The per-service counts add up to the number of submissions. */
  lemma {:induction false} BreakdownSum(subs: seq<ContactSubmission>)
    ensures SumCounts(Breakdown(subs)) == |subs|
  {
    if subs != [] {
      BreakdownSum(subs[..|subs| - 1]);
      AddOneSum(Breakdown(subs[..|subs| - 1]), subs[|subs| - 1].service);
    }
  }

  /** Each service's row holds exactly the number of submissions naming it, and no service has two rows. */
  lemma {:induction false} BreakdownCounts(subs: seq<ContactSubmission>, service: string)
    ensures CountIn(Breakdown(subs), service) == CountService(subs, service)
    ensures DistinctServices(Breakdown(subs))
  {
    if subs != [] {
      var init := subs[..|subs| - 1];
      BreakdownCounts(init, service);
      AddOneCount(Breakdown(init), subs[|subs| - 1].service, service);
      AddOneDistinct(Breakdown(init), subs[|subs| - 1].service);
      CountServiceSnoc(subs, service);
    }
  }

  /** The dashboard numbers of `get_admin_stats`. */
  datatype Stats = Stats(total: nat, unread: nat, recent: nat, breakdown: seq<ServiceCount>)

  /** Every service's count in the breakdown, at once. */
  lemma {:induction false} AddOnePositive(b: seq<ServiceCount>, service: string)
    requires forall x :: x in b ==> x.count >= 1
    ensures forall x :: x in AddOne(b, service) ==> x.count >= 1
  {
    if b != [] && b[0].service != service {
      AddOnePositive(b[1..], service);
      assert AddOne(b, service) == [b[0]] + AddOne(b[1..], service);
    } else if b != [] {
      assert AddOne(b, service) == [ServiceCount(service, b[0].count + 1)] + b[1..];
      assert forall x :: x in b[1..] ==> x in b;
    }
  }

  /** `count(id)` over a group is never zero: every row names a service that occurs. */
  lemma {:induction false} BreakdownPositive(subs: seq<ContactSubmission>)
    ensures forall x :: x in Breakdown(subs) ==> x.count >= 1
  {
    if subs != [] {
      BreakdownPositive(subs[..|subs| - 1]);
      AddOnePositive(Breakdown(subs[..|subs| - 1]), subs[|subs| - 1].service);
    }
  }

  lemma BreakdownCountsAll(subs: seq<ContactSubmission>)
    ensures forall service :: CountIn(Breakdown(subs), service) == CountService(subs, service)
    ensures DistinctServices(Breakdown(subs))
  {
    BreakdownCounts(subs, "");
    forall service ensures CountIn(Breakdown(subs), service) == CountService(subs, service) {
      BreakdownCounts(subs, service);
    }
  }

  /**
    The dashboard numbers: the table size, the size of the unread filter, the
    number of submissions in the last week, and one row per service holding
    exactly the number of submissions naming it.
   */
  function ComputeStats(subs: seq<ContactSubmission>, now: Timestamp): (st: Stats)
    ensures st.total == |subs|
    ensures st.unread <= st.total && st.recent <= st.total
    ensures st.unread == |FilterByRead(subs, Some(false))|
    ensures st.recent == |SubmittedSince(subs, now - Week)|
    ensures SumCounts(st.breakdown) == st.total
    ensures forall service :: CountIn(st.breakdown, service) == CountService(subs, service)
    ensures DistinctServices(st.breakdown)
    ensures forall x :: x in st.breakdown ==> x.count >= 1
  {
    BreakdownSum(subs);
    BreakdownPositive(subs);
    BreakdownCountsAll(subs);
    UnreadIsFilteredCount(subs);
    RecentIsFilteredCount(subs, now - Week);
    Stats(|subs|, CountUnread(subs), CountSince(subs, now - Week), Breakdown(subs))
  }

  function BreakdownJson(b: seq<ServiceCount>): (r: seq<Json>)
    ensures |r| == |b|
    ensures forall i :: 0 <= i < |b| ==>
      r[i] == JObject(map["service" := JStr(b[i].service), "count" := JInt(b[i].count)])
  {
    if b == [] then []
    else [JObject(map["service" := JStr(b[0].service), "count" := JInt(b[0].count)])] + BreakdownJson(b[1..])
  }

  function StatsJson(st: Stats): (d: map<string, Json>)
    ensures d.Keys == {"total_submissions", "unread_submissions", "recent_submissions", "service_breakdown"}
    ensures d["total_submissions"] == JInt(st.total) && d["unread_submissions"] == JInt(st.unread)
    ensures d["recent_submissions"] == JInt(st.recent)
    ensures d["service_breakdown"] == JList(BreakdownJson(st.breakdown))
    ensures |d["service_breakdown"].items| == |st.breakdown|
  {
    map["total_submissions" := JInt(st.total), "unread_submissions" := JInt(st.unread),
        "recent_submissions" := JInt(st.recent), "service_breakdown" := JList(BreakdownJson(st.breakdown))]
  }

  /**
    `request.args.get('is_read', type=bool)`: absent means no filter; any
    present value, even "false", means `bool(value)`, true unless it is empty.
   */
  function ReadFilter(arg: Option<string>): (f: Option<bool>)
    ensures arg.None? <==> f.None?
    ensures arg.Some? ==> (f.value <==> arg.value != "")
  {
    match arg
    case None => None
    case Some(v) => Some(v != "")
  }

  /** `query.filter_by(is_read=...)` when a filter is given, in table order. */
  function FilterByRead(subs: seq<ContactSubmission>, filter: Option<bool>): (r: seq<ContactSubmission>)
    ensures |r| <= |subs|
    ensures forall c :: c in r <==> c in subs && (filter.None? || c.isRead == filter.value)
  {
    if subs == [] then []
    else
      var rest := FilterByRead(subs[1..], filter);
      if filter.None? || subs[0].isRead == filter.value then [subs[0]] + rest else rest
  }

  /** The dashboard's unread count is the size of the list filtered on `is_read=False`. */
  lemma {:induction false} UnreadIsFilteredCount(subs: seq<ContactSubmission>)
    ensures CountUnread(subs) == |FilterByRead(subs, Some(false))|
    ensures |subs| - CountUnread(subs) == |FilterByRead(subs, Some(true))|
  {
    if subs != [] {
      UnreadIsFilteredCount(subs[1..]);
    }
  }

  // ----- the tables and the handlers that change them -----

  ghost predicate IdsIncreasing(subs: seq<ContactSubmission>) {
    forall i, j :: 0 <= i < j < |subs| ==> subs[i].id < subs[j].id
  }

  ghost predicate IdsBelow(subs: seq<ContactSubmission>, bound: int) {
    forall i :: 0 <= i < |subs| ==> subs[i].id < bound
  }

  /** Appending a row whose id is the next id keeps the ids in order and below the next one. */
  lemma AppendKeepsIds(subs: seq<ContactSubmission>, c: ContactSubmission, bound: int)
    requires IdsIncreasing(subs) && IdsBelow(subs, bound) && c.id == bound
    ensures IdsIncreasing(subs + [c]) && IdsBelow(subs + [c], bound + 1)
  {
  }

  /** Deleting one row keeps the ids in order and leaves no row with the deleted id. */
  lemma RemoveKeepsIds(subs: seq<ContactSubmission>, k: nat, bound: int)
    requires k < |subs| && IdsIncreasing(subs) && IdsBelow(subs, bound)
    ensures IdsIncreasing(subs[..k] + subs[k + 1..]) && IdsBelow(subs[..k] + subs[k + 1..], bound)
    ensures forall c :: c in subs[..k] + subs[k + 1..] ==> c in subs && c.id != subs[k].id
  {
    var r := subs[..k] + subs[k + 1..];
    assert forall i :: 0 <= i < |r| ==> r[i] == subs[if i < k then i else i + 1];
  }

  class Api {
    var submissions: seq<ContactSubmission>
    var nextId: int
    var admins: seq<AdminUser>

    /** Submission ids increase with the row and stay below `nextId`; admin ids and usernames are unique. */
    ghost predicate Valid()
      reads this
    {
      IdsIncreasing(submissions) && IdsBelow(submissions, nextId)
      && (forall i, j :: 0 <= i < j < |admins| ==> admins[i].id != admins[j].id)
      && (forall i, j :: 0 <= i < j < |admins| ==> admins[i].username != admins[j].username)
    }

    constructor (initialAdmins: seq<AdminUser>)
      requires forall i, j :: 0 <= i < j < |initialAdmins| ==>
        initialAdmins[i].id != initialAdmins[j].id && initialAdmins[i].username != initialAdmins[j].username
      ensures Valid()
      ensures submissions == [] && nextId == 1 && admins == initialAdmins
    {
      submissions := [];
      nextId := 1;
      admins := initialAdmins;
    }

    /**
      `submit_contact`: a rejected submission leaves the table as it was; an
      accepted one adds exactly one row, with the normalised fields and the new
      id, unless the commit fails and is rolled back.
     */
    method SubmitContact(body: Option<Json>, validEmail: string -> bool, clientIp: Option<string>,
                         now: Timestamp, commitOk: bool) returns (resp: Response)
      requires Valid()
      modifies this
      ensures Valid() && admins == old(admins)
      ensures DecideContact(body, validEmail).Reject? ==>
        resp == ContactErrorResponse(DecideContact(body, validEmail).error)
        && submissions == old(submissions) && nextId == old(nextId)
      ensures DecideContact(body, validEmail).Accept? && !commitOk ==>
        resp == Failure(500, ProcessingError) && submissions == old(submissions) && nextId == old(nextId)
      ensures DecideContact(body, validEmail).Accept? && commitOk ==>
        var f := DecideContact(body, validEmail).fields;
        && submissions == old(submissions) + [NewContactSubmission(old(nextId), f.name, f.email, f.service,
                                                                   f.message, clientIp, now)]
        && nextId == old(nextId) + 1
        && resp == Success(201, map["message" := JStr(ThankYou), "id" := JInt(old(nextId))])
    {
      if !(body.Some? && body.value.JObject?) {
        assert DecideContact(body, validEmail) == Reject(BodyNotObject);
        return ContactErrorResponse(BodyNotObject);
      }
      var data := body.value.fields;
      var check := CheckRequiredFields(data);
      if check.Missing? {
        FirstAbsentFieldReported(body, validEmail, check.index);
        return ContactErrorResponse(FieldMissing(RequiredFields[check.index]));
      }
      if check.Raised? {
        FirstRaisingFieldReported(body, validEmail, check.index);
        return ContactErrorResponse(FieldNotString(RequiredFields[check.index]));
      }
      assert FieldsPresent(body);
      DecideWhenPresent(body, validEmail);
      var email := NormalisedEmail(body);
      if !validEmail(email) {
        assert DecideContact(body, validEmail) == Reject(EmailRejected);
        return ContactErrorResponse(EmailRejected);
      }
      var message := StrippedField(body, 3);
      if |message| < MinMessageLength {
        assert DecideContact(body, validEmail) == Reject(MessageShort);
        return ContactErrorResponse(MessageShort);
      }
      var submission := NewContactSubmission(nextId, StrippedField(body, 0), email, StrippedField(body, 2),
                                             message, clientIp, now);
      if !commitOk {
        return Failure(500, ProcessingError);
      }
      AppendKeepsIds(submissions, submission, nextId);
      submissions := submissions + [submission];
      nextId := nextId + 1;
      resp := Success(201, map["message" := JStr(ThankYou), "id" := JInt(submission.id)]);
    }

    /**
      `admin_login`: only an accepted login with a successful commit changes
      anything, and then only the `last_login` of that admin.
     */
    method AdminLogin(body: Option<Json>, ps: PasswordScheme, now: Timestamp, token: string, commitOk: bool)
      returns (resp: Response)
      requires Valid()
      modifies this
      ensures Valid() && submissions == old(submissions) && nextId == old(nextId)
      ensures DecideLogin(body, ps, old(admins)).LoginReject? ==>
        resp == DecideLogin(body, ps, old(admins)).response && admins == old(admins)
      ensures DecideLogin(body, ps, old(admins)).LoginAccept? && !commitOk ==>
        resp == Failure(500, LoginFailed) && admins == old(admins)
      ensures DecideLogin(body, ps, old(admins)).LoginAccept? && commitOk ==>
        var k := DecideLogin(body, ps, old(admins)).index;
        var admin := old(admins)[k].(lastLogin := Some(now));
        && admins == old(admins)[k := admin]
        && resp == Success(200, map["token" := JStr(token), "admin" := JObject(AdminToDict(admin))])
    {
      var decision := DecideLogin(body, ps, admins);
      if decision.LoginReject? {
        return decision.response;
      }
      if !commitOk {
        return Failure(500, LoginFailed);
      }
      var admin := admins[decision.index].(lastLogin := Some(now));
      admins := admins[decision.index := admin];
      resp := Success(200, map["token" := JStr(token), "admin" := JObject(AdminToDict(admin))]);
    }

    /**
      `get_submission`: behind the guard; fetching an unread submission marks it
      read (a failed commit answers 404 and changes nothing); fetching a read one
      changes nothing. No other row is touched.
     */
    method GetSubmission(auth: TokenCheck, id: int, commitOk: bool) returns (resp: Response)
      requires Valid()
      modifies this
      ensures Valid() && admins == old(admins) && nextId == old(nextId) && |submissions| == |old(submissions)|
      ensures AdminRequired(auth, old(admins)).Deny? ==>
        resp == AdminRequired(auth, old(admins)).response && submissions == old(submissions)
      ensures AdminRequired(auth, old(admins)).Proceed? && Lookup(old(submissions), id).None? ==>
        resp == Failure(404, SubmissionNotFound) && submissions == old(submissions)
      ensures AdminRequired(auth, old(admins)).Proceed? && Lookup(old(submissions), id).Some? ==>
        var k := Lookup(old(submissions), id).value;
        if old(submissions)[k].isRead then
          submissions == old(submissions)
          && resp == Success(200, map["submission" := JObject(ContactToDict(old(submissions)[k]))])
        else if commitOk then
          submissions == old(submissions)[k := old(submissions)[k].(isRead := true)]
          && resp == Success(200, map["submission" := JObject(ContactToDict(submissions[k]))])
        else
          submissions == old(submissions) && resp == Failure(404, SubmissionNotFound)
    {
      var guard := AdminRequired(auth, admins);
      if guard.Deny? {
        return guard.response;
      }
      var found := Lookup(submissions, id);
      if found.None? {
        return Failure(404, SubmissionNotFound);
      }
      var k := found.value;
      if !submissions[k].isRead {
        if !commitOk {
          return Failure(404, SubmissionNotFound);
        }
        submissions := submissions[k := submissions[k].(isRead := true)];
      }
      resp := Success(200, map["submission" := JObject(ContactToDict(submissions[k]))]);
    }

    /**
      `mark_submission_read`: behind the guard; sets `is_read` of that one row to
      the body's boolean `is_read`, true when the key is absent.
     */
    method MarkSubmissionRead(auth: TokenCheck, id: int, body: Option<Json>, commitOk: bool)
      returns (resp: Response)
      requires Valid()
      modifies this
      ensures Valid() && admins == old(admins) && nextId == old(nextId)
      ensures AdminRequired(auth, old(admins)).Deny? ==>
        resp == AdminRequired(auth, old(admins)).response && submissions == old(submissions)
      ensures AdminRequired(auth, old(admins)).Proceed? ==>
        match Lookup(old(submissions), id)
        case None => resp == Failure(500, UpdateFailed) && submissions == old(submissions)
        case Some(k) =>
          if body.Some? && body.value.JObject? && GetOr(body.value.fields, "is_read", JBool(true)).JBool? && commitOk then
            var flag := GetOr(body.value.fields, "is_read", JBool(true)).b;
            submissions == old(submissions)[k := old(submissions)[k].(isRead := flag)]
            && resp == Success(200, map["submission" := JObject(ContactToDict(submissions[k]))])
          else
            resp == Failure(500, UpdateFailed) && submissions == old(submissions)
    {
      var guard := AdminRequired(auth, admins);
      if guard.Deny? {
        return guard.response;
      }
      var found := Lookup(submissions, id);
      if found.None? || !(body.Some? && body.value.JObject?) {
        return Failure(500, UpdateFailed);
      }
      var value := GetOr(body.value.fields, "is_read", JBool(true));
      if !value.JBool? || !commitOk {
        return Failure(500, UpdateFailed);
      }
      var k := found.value;
      submissions := submissions[k := submissions[k].(isRead := value.b)];
      resp := Success(200, map["submission" := JObject(ContactToDict(submissions[k]))]);
    }

    /** `delete_submission`: behind the guard; removes exactly the row with that id. */
    method DeleteSubmission(auth: TokenCheck, id: int, commitOk: bool) returns (resp: Response)
      requires Valid()
      modifies this
      ensures Valid() && admins == old(admins) && nextId == old(nextId)
      ensures AdminRequired(auth, old(admins)).Deny? ==>
        resp == AdminRequired(auth, old(admins)).response && submissions == old(submissions)
      ensures AdminRequired(auth, old(admins)).Proceed? ==>
        match Lookup(old(submissions), id)
        case None => resp == Failure(500, DeleteFailed) && submissions == old(submissions)
        case Some(k) =>
          if commitOk then
            submissions == old(submissions)[..k] + old(submissions)[k + 1..]
            && resp == Success(200, map["message" := JStr(Deleted)])
          else
            resp == Failure(500, DeleteFailed) && submissions == old(submissions)
      ensures resp.code == 200 ==> forall c :: c in submissions ==> c in old(submissions) && c.id != id
    {
      var guard := AdminRequired(auth, admins);
      if guard.Deny? {
        return guard.response;
      }
      var found := Lookup(submissions, id);
      if found.None? || !commitOk {
        return Failure(500, DeleteFailed);
      }
      var k := found.value;
      RemoveKeepsIds(submissions, k, nextId);
      submissions := submissions[..k] + submissions[k + 1..];
      resp := Success(200, map["message" := JStr(Deleted)]);
    }

    /** `set_password` on a stored admin: only that admin's hash changes. */
    method SetAdminPassword(k: nat, ps: PasswordScheme, password: string, salt: string)
      requires Valid() && k < |admins|
      modifies this
      ensures Valid() && submissions == old(submissions) && nextId == old(nextId)
      ensures admins == old(admins)[k := WithPassword(old(admins)[k], ps, password, salt)]
      ensures Sound(ps) ==> CheckPassword(ps, admins[k], password)
    {
      admins := admins[k := WithPassword(admins[k], ps, password, salt)];
    }

    /** `get_admin_stats`: behind the guard; the dashboard numbers of the current table. */
    function AdminStats(auth: TokenCheck, now: Timestamp): (r: Response)
      reads this
      ensures AdminRequired(auth, admins).Deny? ==> r == AdminRequired(auth, admins).response
      ensures AdminRequired(auth, admins).Proceed? ==>
        r == Success(200, map["stats" := JObject(StatsJson(ComputeStats(submissions, now)))])
    {
      match AdminRequired(auth, admins)
      case Deny(response) => response
      case Proceed => Success(200, map["stats" := JObject(StatsJson(ComputeStats(submissions, now)))])
    }

    /** The profile reply for the admin `get_current_admin` found, or a 500 when it found none. */
    static function ProfileOf(current: Option<AdminUser>): (r: Response)
      ensures r.code == 200 <==> current.Some?
      ensures current.Some? ==> r == Success(200, map["admin" := JObject(AdminToDict(current.value))])
    {
      if current.Some? then Success(200, map["admin" := JObject(AdminToDict(current.value))])
      else Failure(500, ProfileFailed)
    }

    /**
      `get_admin_profile`: behind the guard; the current admin's serialised
      record, which never holds the password hash.
     */
    function AdminProfile(auth: TokenCheck): (r: Response)
      reads this
      ensures r.code == 200 <==> AdminRequired(auth, admins).Proceed?
      ensures r.code == 200 ==> "admin" in r.body && r.body["admin"].JObject?
                                && "password_hash" !in r.body["admin"].fields
                                && r.body["admin"].fields.Keys == AdminKeys
                                && r.body["admin"].fields["id"] == JInt(auth.identity)
    ensures r.code == 200 ==>
      r == Success(200, map["admin" := JObject(AdminToDict(FindAdminById(admins, auth.identity).value))])
    ensures r.code != 200 ==> r == AdminRequired(auth, admins).response
    {
      var guard := AdminRequired(auth, admins);
      if guard.Deny? then guard.response
      else ProfileOf(GetCurrentAdmin(auth, admins))
    }
  }
}
