/** The credits administration API (temp-lambda/credits-admin-lambda.py):
    `GET /credits/admin?userId=...` reads one user's balance record and
    `PUT /credits/admin` sets it. Preflight requests are answered before any
    credentials are looked at; everything else needs the `sub` of one of
    three fixed administrator ids.

    The request body reaches the model already parsed: a JSON value, or
    the fact that the text was not JSON. */
module CreditsAdmin {

  import opened Wrappers
  import opened Auth
  import ListJobs
  import AdminConsole
  import Text

  const AllowedOrigins: set<string> := {"https://admin.deepfoundai.com", "http://localhost:5173"}

  const AdminIds: seq<string> := [
    "f4c8e4a8-3081-70cd-43f9-ea8a7b407430",
    "04d8c4d8-20f1-7000-5cf5-90247ec54b3a",
    "44088418-f0d1-7016-37c9-3bbf83358bb6"
  ]

  const UnknownEmail := "Unknown"
  const Never := "Never"
  /** The text of the `decimal.InvalidOperation` raised by `Decimal("True")`. */
  const ConversionError := "[<class 'decimal.ConversionSyntax'>]"

  /** A JSON value as `json.loads` produces it. */
  datatype Json = JNull | JBool(b: bool) | JInt(i: int) | JFloat(r: real) | JString(s: string)
                | JArray(items: seq<Json>) | JObject(fields: map<string, Json>)

  /** Python truthiness of a decoded JSON value. */
  predicate Truthy(v: Json) {
    match v
    case JNull => false
    case JBool(b) => b
    case JInt(i) => i != 0
    case JFloat(r) => r != 0.0
    case JString(s) => s != ""
    case JArray(items) => |items| > 0
    case JObject(fields) => |fields| > 0
  }

  /** The Python type name of a decoded JSON value. */
  function TypeName(v: Json): string {
    match v
    case JNull => "NoneType"
    case JBool(_) => "bool"
    case JInt(_) => "int"
    case JFloat(_) => "float"
    case JString(_) => "str"
    case JArray(_) => "list"
    case JObject(_) => "dict"
  }

  /** The `body` of the event: absent (read as `"{}"`), null, or text that
      did or did not parse as JSON. */
  datatype RawBody = NoBodyKey | NullBody | Text(parsed: Option<Json>)

  datatype CreditsRequest = CreditsRequest(headers: Option<map<string, string>>,
                                           httpMethod: Option<string>, contextMethod: Option<string>,
                                           authorizer: Authorizer, query: Option<map<string, string>>,
                                           body: RawBody)

  /** One item of the credits table, keyed by user id; `None` for an
      attribute the item does not hold. */
  datatype CreditRecord = CreditRecord(credits: Option<real>, email: Option<string>,
                                       lastUpdated: Option<string>, lastModifiedBy: Option<string>)

  type CreditTable = map<string, CreditRecord>

  /** The table, whether its read or its write raises, and the clock's
      `utcnow().isoformat()`. */
  datatype CreditsEnv = CreditsEnv(table: CreditTable, readFails: bool, writeFails: bool, now: string)

  /** `NoBody` is the empty preflight body; `Fault` an error raised by the
      table, whose text the model does not know. */
  datatype Body = NoBody | ErrorBody(error: string) | Fault
                | Balance(userId: string, credits: int, email: string, lastUpdated: string)
                | Updated(userId: string, newCredits: int, updatedBy: string, timestamp: string)

  datatype CreditsReply = CreditsReply(code: int, body: Body, table: CreditTable)

  // ---------------------------------------------------------------------
  // Reading the request

  function Header(headers: Option<map<string, string>>, name: string): Option<string> {
    if headers.Some? && name in headers.value then Some(headers.value[name]) else None
  }

  /** `headers.get("origin") or headers.get("Origin")`. */
  function Origin(headers: Option<map<string, string>>): (o: Option<string>)
    ensures Present(Header(headers, "origin")) ==> o == Header(headers, "origin")
    ensures !Present(Header(headers, "origin")) ==> o == Header(headers, "Origin")
  {
    var lower := Header(headers, "origin");
    if Present(lower) then lower else Header(headers, "Origin")
  }

  predicate AllowedOrigin(o: Option<string>) {
    o.Some? && o.value in AllowedOrigins
  }

  /** `httpMethod` when truthy, else `requestContext.http.method`. */
  function Method(req: CreditsRequest): (m: Option<string>)
    ensures Present(req.httpMethod) ==> m == req.httpMethod
    ensures !Present(req.httpMethod) ==> m == req.contextMethod
  {
    if Present(req.httpMethod) then req.httpMethod else req.contextMethod
  }


  // ---------------------------------------------------------------------
  // The two operations

  /** `get_user_balance_info`: a user without a record reads as zero credits,
      an unknown address and never updated. */
  function BalanceOf(table: CreditTable, userId: string): (b: Body)
    ensures b.Balance? && b.userId == userId
    ensures userId !in table ==> b == Balance(userId, 0, UnknownEmail, Never)
    ensures userId in table ==> b.email == table[userId].email.GetOr(UnknownEmail)
    ensures userId in table ==> b.credits == Text.Trunc(table[userId].credits.GetOr(0.0))
    ensures userId in table ==> b.lastUpdated == table[userId].lastUpdated.GetOr(Never)
  {
    if userId !in table then Balance(userId, 0, UnknownEmail, Never)
    else
      var rec := table[userId];
      Balance(userId, Text.Trunc(rec.credits.GetOr(0.0)), rec.email.GetOr(UnknownEmail), rec.lastUpdated.GetOr(Never))
  }

  /** The number `Decimal(str(v))` reads from an accepted credits value;
      a boolean has none. */
  function Amount(v: Json): Option<real> {
    match v
    case JInt(i) => Some(i as real)
    case JFloat(r) => Some(r)
    case _ => None
  }

  /** `set_user_credits` as written: `put_item` replaces the whole item, so
      every attribute it does not name, such as the e-mail address another
      writer stored, is lost. */
  function StoredAsWritten(table: CreditTable, userId: string, amount: real, admin: string, now: string): (t: CreditTable)
    ensures userId in t && t[userId].credits == Some(amount) && t[userId].lastModifiedBy == Some(admin)
    ensures t[userId].email.None?
    ensures forall u :: u in table && u != userId ==> u in t && t[u] == table[u]
    ensures t.Keys == table.Keys + {userId}
  {
    table[userId := CreditRecord(Some(amount), None, Some(now + "Z"), Some(admin))]
  }

  /** The write as the handler means it ("update or create"): the new
      credits, time and administrator, and every other attribute kept. */
  function Stored(table: CreditTable, userId: string, amount: real, admin: string, now: string): (t: CreditTable)
    ensures userId in t && t[userId].credits == Some(amount) && t[userId].lastModifiedBy == Some(admin)
    ensures userId in table ==> t[userId].email == table[userId].email
    ensures forall u :: u in table && u != userId ==> u in t && t[u] == table[u]
    ensures t.Keys == table.Keys + {userId}
  {
    var email := if userId in table then table[userId].email else None;
    table[userId := CreditRecord(Some(amount), email, Some(now + "Z"), Some(admin))]
  }

  /** The PUT branch after the caller was admitted, with the write the
      code issues: `put_item` replaces the user's whole record. */
  function Put(body: RawBody, admin: string, env: CreditsEnv): (r: CreditsReply)
    ensures r.code in {200, 400, 500}
    ensures r.code != 200 ==> r.table == env.table
    ensures r.code == 200 ==> r.body.Updated? && r.body.userId in r.table && r.table[r.body.userId].email.None?
    ensures r.code == 200 ==> r.table.Keys == env.table.Keys + {r.body.userId}
  {
    PutWith(body, admin, env, true)
  }

  /** The PUT branch with the write the handler means ("update or
      create"): the user's other attributes are kept. */
  function PutIntended(body: RawBody, admin: string, env: CreditsEnv): (r: CreditsReply)
    ensures r.code in {200, 400, 500}
    ensures r.code != 200 ==> r.table == env.table
    ensures r.code == 200 ==> r.body.Updated? && r.body.userId in r.table
    ensures r.code == 200 && r.body.userId in env.table ==>
              r.table[r.body.userId].email == env.table[r.body.userId].email
    ensures r.code == 200 ==> r.table.Keys == env.table.Keys + {r.body.userId}
  {
    PutWith(body, admin, env, false)
  }

  /** The PUT branch, the write replacing the whole record when `wholeRecord` holds
      and keeping its other attributes otherwise. The checks run in the
      code's order: a JSON body, a truthy `userId` and a non-null
      `credits`, a non-negative number, then the decimal conversion and
      the write. */
  function PutWith(body: RawBody, admin: string, env: CreditsEnv, wholeRecord: bool): (r: CreditsReply)
    ensures r.code in {200, 400, 500}
    ensures r.code != 200 ==> r.table == env.table
    ensures r.code == 200 ==>
              && r.body.Updated? && r.body.userId in r.table
              && r.table.Keys == env.table.Keys + {r.body.userId}
              && (forall u :: u in env.table && u != r.body.userId ==> r.table[u] == env.table[u])
    ensures r.code == 200 && wholeRecord ==> r.table[r.body.userId].email.None?
    ensures r.code == 200 && !wholeRecord && r.body.userId in env.table ==>
              r.table[r.body.userId].email == env.table[r.body.userId].email
  {
    var data := match body {
      case NoBodyKey => Some(JObject(map[]))
      case NullBody => None
      case Text(parsed) => parsed
    };
    if data.None? then CreditsReply(400, ErrorBody("Invalid JSON body"), env.table)
    else if !data.value.JObject? then
      CreditsReply(500, ErrorBody("'" + TypeName(data.value) + "' object has no attribute 'get'"), env.table)
    else
      var fields := data.value.fields;
      var user := if "userId" in fields then fields["userId"] else JNull;
      var credits := if "credits" in fields then fields["credits"] else JNull;
      if !Truthy(user) || credits.JNull? then
        CreditsReply(400, ErrorBody("userId and credits are required"), env.table)
      else if !(credits.JBool? || credits.JInt? || credits.JFloat?)
              || (credits.JInt? && credits.i < 0) || (credits.JFloat? && credits.r < 0.0) then
        CreditsReply(400, ErrorBody("Credits must be a non-negative number"), env.table)
      else if credits.JBool? then CreditsReply(500, ErrorBody(ConversionError), env.table)
      else if !user.JString? || env.writeFails then CreditsReply(500, Fault, env.table)
      else
        var amount := Amount(credits).value;
        var table := if wholeRecord then StoredAsWritten(env.table, user.s, amount, admin, env.now)
                     else Stored(env.table, user.s, amount, admin, env.now);
        CreditsReply(200, Updated(user.s, Text.Trunc(amount), admin, env.now + "Z"), table)
  }

  /** The GET branch after the caller was admitted. */
  function Get(query: Option<map<string, string>>, env: CreditsEnv): (r: CreditsReply)
    ensures r.code in {200, 400, 500} && r.table == env.table
  {
    var user := AdminConsole.Param(query, "userId");
    if !Present(user) then CreditsReply(400, ErrorBody("userId parameter required"), env.table)
    else if env.readFails then CreditsReply(500, Fault, env.table)
    else CreditsReply(200, BalanceOf(env.table, user.value), env.table)
  }

  predicate IsAdmin(a: Authorizer) {
    Subject(a).Some? && Subject(a).value in AdminIds
  }

  /** The handler. */
  function HandleCredits(req: CreditsRequest, env: CreditsEnv): (r: CreditsReply)
    ensures Method(req) == Some("OPTIONS") ==>
              r == (if AllowedOrigin(Origin(req.headers)) then CreditsReply(204, NoBody, env.table)
                    else CreditsReply(403, ErrorBody("Origin not allowed"), env.table))
    ensures Method(req) != Some("OPTIONS") && Subject(req.authorizer).None? ==>
              r == CreditsReply(401, ErrorBody("Unauthorized"), env.table)
    ensures Method(req) != Some("OPTIONS") && Subject(req.authorizer).Some? && !IsAdmin(req.authorizer) ==>
              r == CreditsReply(403, ErrorBody("Forbidden - Admin access required"), env.table)
    ensures IsAdmin(req.authorizer) && Method(req) == Some("GET") ==> r == Get(req.query, env)
    ensures IsAdmin(req.authorizer) && Method(req) == Some("PUT") ==> r == Put(req.body, Subject(req.authorizer).value, env)
    ensures IsAdmin(req.authorizer) && Method(req) !in {Some("GET"), Some("PUT"), Some("OPTIONS")} ==>
              r == CreditsReply(405, ErrorBody(ListJobs.MethodError(Method(req))), env.table)
  {
    var m := Method(req);
    if m == Some("OPTIONS") then
      if AllowedOrigin(Origin(req.headers)) then CreditsReply(204, NoBody, env.table)
      else CreditsReply(403, ErrorBody("Origin not allowed"), env.table)
    else match Subject(req.authorizer)
      case None => CreditsReply(401, ErrorBody("Unauthorized"), env.table)
      case Some(admin) =>
        if admin !in AdminIds then CreditsReply(403, ErrorBody("Forbidden - Admin access required"), env.table)
        else if m == Some("GET") then Get(req.query, env)
        else if m == Some("PUT") then Put(req.body, admin, env)
        else CreditsReply(405, ErrorBody(ListJobs.MethodError(m)), env.table)
  }

  // ---------------------------------------------------------------------
  // Properties

  /** Only an administrator's successful PUT changes the table, and it
      changes only the record of the user it names. */
  lemma OnlyPutWrites(req: CreditsRequest, env: CreditsEnv)
    ensures var r := HandleCredits(req, env);
            r.table != env.table ==>
              && r.code == 200 && IsAdmin(req.authorizer) && Method(req) == Some("PUT")
              && r.body.Updated?
              && (forall u :: u in env.table && u != r.body.userId ==> u in r.table && r.table[u] == env.table[u])
  {
  }

  /** A preflight is answered the same whoever sends it and whatever the
      table holds. */
  lemma PreflightIgnoresCaller(req: CreditsRequest, a: Authorizer, env1: CreditsEnv, env2: CreditsEnv)
    requires Method(req) == Some("OPTIONS") && env1.table == env2.table
    ensures HandleCredits(req, env1) == HandleCredits(req.(authorizer := a), env2)
  {
  }

  /** What a PUT stores, a later GET of the same user reads back: the
      credits (truncated to a whole number, as the PUT's own answer shows
      them) and the clock reading the write stored. The e-mail address reads "Unknown"
      whatever the record held, since the write replaced the record. */
  lemma PutThenGet(user: string, credits: Json, admin: string, env: CreditsEnv, query: map<string, string>)
    requires user != "" && admin in AdminIds
    requires (credits.JInt? && credits.i >= 0) || (credits.JFloat? && credits.r >= 0.0)
    requires !env.writeFails && !env.readFails
    requires query == map["userId" := user]
    ensures var put := Put(Text(Some(JObject(map["userId" := JString(user), "credits" := credits]))), admin, env);
            var get := Get(Some(query), env.(table := put.table));
            && put.code == 200 && get.code == 200
            && get.body.credits == put.body.newCredits == Text.Trunc(Amount(credits).value)
            && put.body.timestamp == env.now + "Z" && get.body.lastUpdated == env.now + "Z"
            && get.body.email == UnknownEmail
  {
    var fields := map["userId" := JString(user), "credits" := credits];
    assert "userId" in fields && fields["userId"] == JString(user);
    assert "credits" in fields && fields["credits"] == credits;
    assert "userId" in query && query["userId"] == user;
  }

  /** With the intended write, the GET after a PUT reads back the same
      credits and time, and the e-mail address the record held. */
  lemma IntendedPutThenGet(user: string, credits: Json, admin: string, env: CreditsEnv, query: map<string, string>)
    requires user != "" && admin in AdminIds
    requires (credits.JInt? && credits.i >= 0) || (credits.JFloat? && credits.r >= 0.0)
    requires !env.writeFails && !env.readFails
    requires query == map["userId" := user]
    ensures var put := PutIntended(Text(Some(JObject(map["userId" := JString(user), "credits" := credits]))), admin, env);
            var get := Get(Some(query), env.(table := put.table));
            && put.code == 200 && get.code == 200
            && get.body.credits == put.body.newCredits == Text.Trunc(Amount(credits).value)
            && put.body.timestamp == env.now + "Z" && get.body.lastUpdated == env.now + "Z"
            && get.body.email == (if user in env.table then env.table[user].email.GetOr(UnknownEmail) else UnknownEmail)
  {
    var fields := map["userId" := JString(user), "credits" := credits];
    assert "userId" in fields && fields["userId"] == JString(user);
    assert "credits" in fields && fields["credits"] == credits;
    assert "userId" in query && query["userId"] == user;
  }

  /** The write as coded erases the address: after a PUT, the GET of a user
      whose record held an e-mail address answers "Unknown". */
  lemma PutAsWrittenErasesEmail(table: CreditTable, user: string, amount: real, admin: string, now: string)
    requires user in table && table[user].email == Some("user@example.com")
    ensures BalanceOf(table, user).email == "user@example.com"
    ensures BalanceOf(StoredAsWritten(table, user, amount, admin, now), user).email == UnknownEmail
  {
  }

  /** The intended write keeps the address. */
  lemma PutKeepsEmail(table: CreditTable, user: string, amount: real, admin: string, now: string)
    ensures BalanceOf(Stored(table, user, amount, admin, now), user).email == BalanceOf(table, user).email
  {
  }

  /** A JSON boolean passes the number check, since `bool` is an `int` in
      Python, and then fails the decimal conversion: 500, nothing stored. */
  lemma BooleanCreditsFail(user: string, b: bool, admin: string, env: CreditsEnv)
    requires user != ""
    ensures var r := Put(Text(Some(JObject(map["userId" := JString(user), "credits" := JBool(b)]))), admin, env);
            r == CreditsReply(500, ErrorBody(ConversionError), env.table)
  {
    var fields := map["userId" := JString(user), "credits" := JBool(b)];
    assert "userId" in fields && fields["userId"] == JString(user);
    assert "credits" in fields && fields["credits"] == JBool(b);
  }

  /** Negative credits are refused whatever else the body holds. */
  lemma NegativeCreditsRefused(fields: map<string, Json>, admin: string, env: CreditsEnv)
    requires "userId" in fields && Truthy(fields["userId"])
    requires "credits" in fields && ((fields["credits"].JInt? && fields["credits"].i < 0)
                                     || (fields["credits"].JFloat? && fields["credits"].r < 0.0))
    ensures Put(Text(Some(JObject(fields))), admin, env) ==
            CreditsReply(400, ErrorBody("Credits must be a non-negative number"), env.table)
  {
  }

  /** The two administrator lists differ: the fourth administrator of the
      jobs console is refused by the credits API. */
  lemma ConsoleAdminRefusedHere(req: CreditsRequest, env: CreditsEnv)
    requires Method(req) != Some("OPTIONS")
    requires Subject(req.authorizer) == Some(AdminConsole.AdminIds[3])
    ensures AdminConsole.IsAdmin(req.authorizer)
    ensures HandleCredits(req, env).code == 403
  {
    assert AdminConsole.AdminIds[3] in AdminConsole.AdminIds;
    assert AdminConsole.AdminIds[3] !in AdminIds;
  }
}
