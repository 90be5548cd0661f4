/** Requests, responses and collaborator outcomes shared by the two edge
    functions (the gateway and the standalone registration function). */
module Http {
  import opened JsValues

  type Headers = map<string, string>

  /** The `corsHeaders` object of both edge functions. */
  const CorsHeaders: Headers := map[
    "Access-Control-Allow-Origin" := "*",
    "Access-Control-Allow-Headers" := "authorization, x-client-info, apikey, content-type"
  ]

  /** What `createResponse` sends: the CORS headers plus the JSON content type. */
  const JsonHeaders: Headers := CorsHeaders["Content-Type" := "application/json"]

  const TooManyRequests := "Too many requests, please try again later"
  const CredentialsRequired := "Email and password are required"
  const InvalidEmail := "Invalid email format"
  const WeakPassword := "Password does not meet complexity requirements"
  const NoUserData := "No user data available"
  const UserIdRequired := "User ID is required"
  const UserNotFound := "User not found"
  const AccountDeleted := "User account deleted successfully"
  const RouteNotFound := "Not Found"
  const UnexpectedError := "An unexpected error occurred"

  /** An error object returned by the identity provider or the `users` store. */
  datatype ErrorInfo = ErrorInfo(message: string)

  /** The user object `auth.signUp` returns. */
  datatype AuthUser = AuthUser(id: string, email: string)

  /** A row of `users` projected on `id, email, created_at`: no password column. */
  datatype UserRow = UserRow(id: string, email: string, createdAt: string)

  datatype UserPayload =
    | Created(account: AuthUser)
    | Stored(row: UserRow)
    | Echo(id: string, email: Option<string>)

  /** The JSON bodies the handlers send, and the plain `'ok'` of a preflight. */
  datatype Body =
    | PlainOk
    | Error(error: string)
    | ErrorWithDetails(error: string, details: ErrorInfo)
    | UserBody(user: UserPayload)
    | MessageBody(message: string)

  datatype Response = Response(status: int, body: Body, headers: Headers)

  /** The fields the handlers destructure from the JSON body. */
  datatype Fields = Fields(userId: Option<string>, email: Option<string>, password: Option<string>)

  /** `await req.json()` followed by destructuring: the fields, or the
      message of the exception it threw. */
  datatype JsonBody = Parsed(fields: Fields) | Unparsable(message: string)

  /** A request after URL parsing; header names are lower case. */
  datatype Request = Request(httpMethod: string, path: string, headers: Headers, body: JsonBody)

  /** What a collaborator call that returns data gives back. */
  datatype Outcome<+T> = Ok(data: T) | NoData | Failed(error: ErrorInfo) | Threw(message: string)

  /** What a collaborator call whose data is ignored gives back. */
  datatype Ack = Acked | Refused(error: ErrorInfo) | Raised(message: string)

  /** The answer each collaborator would give if it were called. */
  datatype Collaborators = Collaborators(
    signUp: Outcome<AuthUser>,
    selectUser: Outcome<UserRow>,
    updatePassword: Ack,
    updateEmail: Outcome<UserRow>,
    deleteUser: Ack)

  /** A call a handler makes to the identity provider or the `users` table. */
  datatype Call =
    | SignUp(email: string, password: string)
    | SelectUser(id: string)
    | UpdatePassword(id: string, password: string)
    | UpdateEmail(id: string, email: string)
    | DeleteAuthUser(id: string)

  /** A handler's response together with the calls it made, in order. */
  datatype Handled = Handled(response: Response, calls: seq<Call>)

  function CreateResponse(body: Body, status: int): (r: Response)
    ensures r.status == status && r.body == body
    ensures CarriesCors(r) && Header(r.headers, "Content-Type") == Some("application/json")
  {
    Response(status, body, JsonHeaders)
  }

  /** `new Response('ok', { headers: corsHeaders })`: status 200 by default. */
  function PreflightResponse(): (r: Response)
    ensures r.status == 200 && r.body == PlainOk
    ensures CarriesCors(r) && Header(r.headers, "Content-Type") == None
  {
    Response(200, PlainOk, CorsHeaders)
  }

  /** The `catch` blocks: 500 with `error.message || "An unexpected error occurred"`. */
  function Fault(thrown: string): (r: Response)
    ensures r.status == 500 && r.body.Error? && r.body.error != ""
    ensures r.body.error == thrown || (thrown == "" && r.body.error == UnexpectedError)
    ensures CarriesCors(r)
  {
    CreateResponse(Error(if thrown != "" then thrown else UnexpectedError), 500)
  }

  predicate CarriesCors(r: Response)
  {
    forall name :: name in CorsHeaders ==> name in r.headers && r.headers[name] == CorsHeaders[name]
  }

  function Header(headers: Headers, name: string): Option<string>
  {
    if name in headers then Some(headers[name]) else None
  }

  /** The rate-limit bucket of a request:
      `x-forwarded-for || client-ip || "unknown"`. */
  function ClientKey(headers: Headers): (key: string)
    ensures key != ""
    ensures Truthy(Header(headers, "x-forwarded-for")) ==> key == headers["x-forwarded-for"]
    ensures !Truthy(Header(headers, "x-forwarded-for")) && Truthy(Header(headers, "client-ip")) ==>
              key == headers["client-ip"]
    ensures !Truthy(Header(headers, "x-forwarded-for")) && !Truthy(Header(headers, "client-ip")) ==>
              key == "unknown"
  {
    var forwarded := Header(headers, "x-forwarded-for");
    var clientIp := Header(headers, "client-ip");
    if Truthy(forwarded) then forwarded.value
    else if Truthy(clientIp) then clientIp.value
    else "unknown"
  }
}
