/** The account gateway: one entry point that routes on method and path
    to registration, lookup, update and deletion of a user. Registration
    is guarded by the limiter with a 5-minute window and 20 requests. */
module Gateway {
  import opened JsValues
  import opened Http
  import opened Validators
  import RateLimit

  const RateLimitWindowMs: int := 5 * 60 * 1000
  const RateLimitMaxRequests: int := 20
  const LimiterPolicy: RateLimit.Policy := RateLimit.Policy(RateLimitWindowMs, RateLimitMaxRequests)

  datatype Route = Preflight | RegisterRoute | DetailsRoute | UpdateRoute | DeleteRoute | NoRoute

  /** The dispatch of `handleRequest`: preflight first, then the four
      method-and-path pairs, and nothing else. */
  function RouteOf(httpMethod: string, path: string): (r: Route)
    ensures r == Preflight <==> httpMethod == "OPTIONS"
    ensures r == RegisterRoute <==> httpMethod == "POST" && path == "/api/user/register"
    ensures r == DetailsRoute <==> httpMethod == "GET" && path == "/api/user/details"
    ensures r == UpdateRoute <==> httpMethod == "PUT" && path == "/api/user/update"
    ensures r == DeleteRoute <==> httpMethod == "DELETE" && path == "/api/user/delete"
  {
    if httpMethod == "OPTIONS" then Preflight
    else if httpMethod == "POST" && path == "/api/user/register" then RegisterRoute
    else if httpMethod == "GET" && path == "/api/user/details" then DetailsRoute
    else if httpMethod == "PUT" && path == "/api/user/update" then UpdateRoute
    else if httpMethod == "DELETE" && path == "/api/user/delete" then DeleteRoute
    else NoRoute
  }

  /** Registration once the limiter has answered `limited`: the body is
      read only for a client that is not limited, and the identity
      provider is asked only for credentials that pass every check. */
  function Register(limited: bool, request: JsonBody, signUp: Outcome<AuthUser>): (h: Handled)
    ensures CarriesCors(h.response)
    ensures limited ==> h == Handled(CreateResponse(Error(TooManyRequests), 429), [])
    ensures !limited && request.Unparsable? ==> h == Handled(Fault(request.message), [])
    ensures !limited && request.Parsed? && !(Truthy(request.fields.email) && Truthy(request.fields.password)) ==>
              h == Handled(CreateResponse(Error(CredentialsRequired), 400), [])
    // the address is checked before the password
    ensures !limited && request.Parsed? && Truthy(request.fields.email) && Truthy(request.fields.password) &&
            !ValidateEmail(request.fields.email.value) ==>
              h == Handled(CreateResponse(Error(InvalidEmail), 400), [])
    ensures !limited && request.Parsed? && Truthy(request.fields.email) && Truthy(request.fields.password) &&
            ValidateEmail(request.fields.email.value) && !ValidatePassword(request.fields.password.value) ==>
              h == Handled(CreateResponse(Error(WeakPassword), 400), [])
    ensures h.calls != [] <==>
              !limited && request.Parsed? && AcceptsCredentials(request.fields.email, request.fields.password)
    ensures h.calls != [] ==> h.calls == [SignUp(request.fields.email.value, request.fields.password.value)]
    ensures h.response.status == 200 <==> h.calls != [] && signUp.Ok?
    ensures h.response.status == 200 ==> h.response.body == UserBody(Created(signUp.data))
    ensures h.calls != [] && signUp.Failed? ==>
              h.response == CreateResponse(ErrorWithDetails(signUp.error.message, signUp.error), 400)
    ensures h.calls != [] && signUp.NoData? ==> h.response == CreateResponse(Error(NoUserData), 404)
    ensures h.calls != [] && signUp.Threw? ==> h.response == Fault(signUp.message)
  {
    if limited then Handled(CreateResponse(Error(TooManyRequests), 429), [])
    else
      match request
      case Unparsable(m) => Handled(Fault(m), [])
      case Parsed(f) =>
        if !Truthy(f.email) || !Truthy(f.password) then Handled(CreateResponse(Error(CredentialsRequired), 400), [])
        else if !ValidateEmail(f.email.value) then Handled(CreateResponse(Error(InvalidEmail), 400), [])
        else if !ValidatePassword(f.password.value) then Handled(CreateResponse(Error(WeakPassword), 400), [])
        else
          var calls := [SignUp(f.email.value, f.password.value)];
          match signUp
          case Threw(m) => Handled(Fault(m), calls)
          case Failed(e) => Handled(CreateResponse(ErrorWithDetails(e.message, e), 400), calls)
          case Ok(user) => Handled(CreateResponse(UserBody(Created(user)), 200), calls)
          case NoData => Handled(CreateResponse(Error(NoUserData), 404), calls)
  }

  /** `handleUserRegistration`: its own preflight check, the client key,
      the limiter, then `Register`. */
  method HandleUserRegistration(store: RateLimit.RateLimitStore, req: Request, now: int,
                                fault: RateLimit.StoreFault, signUp: Outcome<AuthUser>)
    returns (h: Handled)
    modifies store
    ensures req.httpMethod == "OPTIONS" ==> h == Handled(PreflightResponse(), []) && store.rows == old(store.rows)
    ensures req.httpMethod != "OPTIONS" ==>
              var d := RateLimit.Step(old(store.rows), ClientKey(req.headers), now, fault, LimiterPolicy);
              store.rows == d.rows && h == Register(d.limited, req.body, signUp)
  {
    if req.httpMethod == "OPTIONS" {
      return Handled(PreflightResponse(), []);
    }
    var clientIp := ClientKey(req.headers);
    var limited := store.IsRateLimited(clientIp, now, fault, LimiterPolicy);
    h := Register(limited, req.body, signUp);
  }

  /** `getUserDetails`: the user's `id, email, created_at`, never more. */
  function GetUserDetails(request: JsonBody, select: Outcome<UserRow>): (h: Handled)
    ensures CarriesCors(h.response)
    ensures request.Parsed? && !Truthy(request.fields.userId) ==>
              h == Handled(CreateResponse(Error(UserIdRequired), 400), [])
    ensures h.calls != [] <==> request.Parsed? && Truthy(request.fields.userId)
    ensures h.calls != [] ==> h.calls == [SelectUser(request.fields.userId.value)]
    ensures h.response.status == 200 <==> h.calls != [] && select.Ok?
    ensures h.response.status == 200 ==> h.response.body == UserBody(Stored(select.data))
    ensures h.calls != [] && select.Failed? ==> h.response == CreateResponse(Error(select.error.message), 400)
    ensures h.calls != [] && select.NoData? ==> h.response == CreateResponse(Error(UserNotFound), 404)
    ensures request.Unparsable? ==> h == Handled(Fault(request.message), [])
    ensures h.calls != [] && select.Threw? ==> h.response == Fault(select.message)
    ensures h.response.status == 500 <==> request.Unparsable? || (h.calls != [] && select.Threw?)
  {
    match request
    case Unparsable(m) => Handled(Fault(m), [])
    case Parsed(f) =>
      if !Truthy(f.userId) then Handled(CreateResponse(Error(UserIdRequired), 400), [])
      else
        var calls := [SelectUser(f.userId.value)];
        match select
        case Threw(m) => Handled(Fault(m), calls)
        case Failed(e) => Handled(CreateResponse(Error(e.message), 400), calls)
        case Ok(row) => Handled(CreateResponse(UserBody(Stored(row)), 200), calls)
        case NoData => Handled(CreateResponse(Error(UserNotFound), 404), calls)
  }

  /** What `updateUserDetails` promises, case by case. */
  ghost predicate UpdateContract(request: JsonBody, passwordAck: Ack, emailUpdate: Outcome<UserRow>, h: Handled)
  {
    && CarriesCors(h.response)
    && h.response.status in {200, 400, 500}
    && (request.Unparsable? ==> h == Handled(Fault(request.message), []))
    && (request.Parsed? ==>
          var f := request.fields;
          && (!Truthy(f.userId) ==> h == Handled(CreateResponse(Error(UserIdRequired), 400), []))
          && (Truthy(f.userId) ==> UpdateAccepted(f, passwordAck, emailUpdate, h)))
  }

  /** The part of `UpdateContract` for a request that names a user. */
  ghost predicate UpdateAccepted(f: Fields, passwordAck: Ack, emailUpdate: Outcome<UserRow>, h: Handled)
    requires Truthy(f.userId)
  {
    var id := f.userId.value;
    var emailOk := !Truthy(f.email) || ValidateEmail(f.email.value);
    var passwordOk := !Truthy(f.password) || ValidatePassword(f.password.value);
    var emailCall := if Truthy(f.email) then [UpdateEmail(id, f.email.value)] else [];
    // a bad email is rejected before any password change is tried
    && (!emailOk ==> h == Handled(CreateResponse(Error(InvalidEmail), 400), []))
    && (emailOk && !passwordOk ==>
          h == Handled(CreateResponse(Error(WeakPassword), 400), []))
    // the provider changes the password first; a refusal stops the update
    && (emailOk && passwordOk && Truthy(f.password) ==>
          && |h.calls| >= 1 && h.calls[0] == UpdatePassword(id, f.password.value)
          && (passwordAck.Refused? ==>
                h == Handled(CreateResponse(Error(passwordAck.error.message), 400), h.calls[..1]))
          && (passwordAck.Raised? ==> h == Handled(Fault(passwordAck.message), h.calls[..1])))
    // then the `users` row gets the new email, when there is one
    && (emailOk && passwordOk && (!Truthy(f.password) || passwordAck.Acked?) ==>
          && h.calls == (if Truthy(f.password) then [UpdatePassword(id, f.password.value)] else []) + emailCall
          && (Truthy(f.email) && emailUpdate.Ok? ==>
                h.response == CreateResponse(UserBody(Stored(emailUpdate.data)), 200))
          && (Truthy(f.email) && emailUpdate.Failed? ==>
                h.response == CreateResponse(Error(emailUpdate.error.message), 400))
          && (Truthy(f.email) && emailUpdate.Threw? ==> h.response == Fault(emailUpdate.message))
          // otherwise the request is echoed back
          && (!Truthy(f.email) || emailUpdate.NoData? ==>
                h.response == CreateResponse(UserBody(Echo(id, if Truthy(f.email) then f.email else None)), 200)))
  }

  /** `updateUserDetails`: stage the email change in `updateData`, change
      the password through the provider, then write `updateData` to the
      `users` row if it holds anything. */
  method UpdateUserDetails(request: JsonBody, passwordAck: Ack, emailUpdate: Outcome<UserRow>) returns (h: Handled)
    ensures UpdateContract(request, passwordAck, emailUpdate, h)
    ensures request.Parsed? && Truthy(request.fields.userId) &&
            !Truthy(request.fields.email) && !Truthy(request.fields.password) ==>
              h == Handled(CreateResponse(UserBody(Echo(request.fields.userId.value, None)), 200), [])
  {
    if request.Unparsable? {
      return Handled(Fault(request.message), []);
    }
    var f := request.fields;
    if !Truthy(f.userId) {
      return Handled(CreateResponse(Error(UserIdRequired), 400), []);
    }
    var id := f.userId.value;
    var updateData: map<string, string> := map[];
    var calls: seq<Call> := [];
    if Truthy(f.email) {
      if !ValidateEmail(f.email.value) {
        return Handled(CreateResponse(Error(InvalidEmail), 400), []);
      }
      updateData := updateData["email" := f.email.value];
    }
    if Truthy(f.password) {
      if !ValidatePassword(f.password.value) {
        return Handled(CreateResponse(Error(WeakPassword), 400), []);
      }
      calls := calls + [UpdatePassword(id, f.password.value)];
      match passwordAck {
        case Raised(m) =>
          return Handled(Fault(m), calls);
        case Refused(e) =>
          return Handled(CreateResponse(Error(e.message), 400), calls);
        case Acked =>
      }
    }
    if |updateData| > 0 {
      assert "email" in updateData;
      calls := calls + [UpdateEmail(id, updateData["email"])];
      match emailUpdate {
        case Threw(m) =>
          return Handled(Fault(m), calls);
        case Failed(e) =>
          return Handled(CreateResponse(Error(e.message), 400), calls);
        case Ok(row) =>
          return Handled(CreateResponse(UserBody(Stored(row)), 200), calls);
        case NoData =>
      }
    }
    var echoed := if Truthy(f.email) then f.email else None;
    h := Handled(CreateResponse(UserBody(Echo(id, echoed)), 200), calls);
  }

  /** `deleteUserAccount`: success only when the provider reports no error. */
  function DeleteUserAccount(request: JsonBody, deleteUser: Ack): (h: Handled)
    ensures CarriesCors(h.response)
    ensures request.Parsed? && !Truthy(request.fields.userId) ==>
              h == Handled(CreateResponse(Error(UserIdRequired), 400), [])
    ensures h.calls != [] <==> request.Parsed? && Truthy(request.fields.userId)
    ensures h.calls != [] ==> h.calls == [DeleteAuthUser(request.fields.userId.value)]
    ensures h.response.status == 200 <==> h.calls != [] && deleteUser.Acked?
    ensures h.response.status == 200 ==> h.response.body == MessageBody(AccountDeleted)
    ensures h.calls != [] && deleteUser.Refused? ==>
              h.response == CreateResponse(Error(deleteUser.error.message), 400)
    ensures request.Unparsable? ==> h == Handled(Fault(request.message), [])
    ensures h.calls != [] && deleteUser.Raised? ==> h.response == Fault(deleteUser.message)
    ensures h.response.status == 500 <==> request.Unparsable? || (h.calls != [] && deleteUser.Raised?)
  {
    match request
    case Unparsable(m) => Handled(Fault(m), [])
    case Parsed(f) =>
      if !Truthy(f.userId) then Handled(CreateResponse(Error(UserIdRequired), 400), [])
      else
        var calls := [DeleteAuthUser(f.userId.value)];
        match deleteUser
        case Raised(m) => Handled(Fault(m), calls)
        case Refused(e) => Handled(CreateResponse(Error(e.message), 400), calls)
        case Acked => Handled(CreateResponse(MessageBody(AccountDeleted), 200), calls)
  }

  /** `handleRequest`: only registration touches the `rate_limits` table. */
  method HandleRequest(store: RateLimit.RateLimitStore, req: Request, now: int,
                       fault: RateLimit.StoreFault, env: Collaborators)
    returns (h: Handled)
    modifies store
    ensures CarriesCors(h.response)
    ensures RouteOf(req.httpMethod, req.path) != RegisterRoute ==> store.rows == old(store.rows)
    ensures RouteOf(req.httpMethod, req.path) == Preflight ==> h == Handled(PreflightResponse(), [])
    ensures RouteOf(req.httpMethod, req.path) == NoRoute ==>
              h == Handled(CreateResponse(Error(RouteNotFound), 404), [])
    ensures RouteOf(req.httpMethod, req.path) == RegisterRoute ==>
              var d := RateLimit.Step(old(store.rows), ClientKey(req.headers), now, fault, LimiterPolicy);
              store.rows == d.rows && h == Register(d.limited, req.body, env.signUp)
    ensures RouteOf(req.httpMethod, req.path) == DetailsRoute ==> h == GetUserDetails(req.body, env.selectUser)
    ensures RouteOf(req.httpMethod, req.path) == UpdateRoute ==>
              UpdateContract(req.body, env.updatePassword, env.updateEmail, h)
    ensures RouteOf(req.httpMethod, req.path) == DeleteRoute ==> h == DeleteUserAccount(req.body, env.deleteUser)
  {
    match RouteOf(req.httpMethod, req.path) {
      case Preflight =>
        h := Handled(PreflightResponse(), []);
      case RegisterRoute =>
        h := HandleUserRegistration(store, req, now, fault, env.signUp);
      case DetailsRoute =>
        h := GetUserDetails(req.body, env.selectUser);
      case UpdateRoute =>
        h := UpdateUserDetails(req.body, env.updatePassword, env.updateEmail);
      case DeleteRoute =>
        h := DeleteUserAccount(req.body, env.deleteUser);
      case NoRoute =>
        h := Handled(CreateResponse(Error(RouteNotFound), 404), []);
    }
  }

  /** With this policy the 21st registration attempt from one client inside
      one fresh window is answered 429, whatever its body, after twenty
      attempts were let through. */
  lemma TwentyFirstRegistrationRejected(rows: RateLimit.Table, attempts: seq<RateLimit.Attempt>,
                                        request: JsonBody, signUp: Outcome<AuthUser>)
    requires |attempts| == 21
    requires forall i | 0 <= i < |attempts| ::
               attempts[i].clientIp == attempts[0].clientIp && attempts[i].fault.None?
    requires var key := attempts[0].clientIp;
             key !in rows || attempts[0].now - rows[key].timestamp >= RateLimitWindowMs
    requires forall i | 1 <= i < |attempts| :: attempts[i].now - attempts[0].now < RateLimitWindowMs
    ensures var t := RateLimit.Run(rows, attempts, LimiterPolicy);
            && (forall i | 0 <= i < 20 :: !t.limited[i])
            && t.limited[20]
            && Register(t.limited[20], request, signUp).response.status == 429
  {
    RateLimit.FreshWindowAdmitsExactlyMax(rows, attempts, LimiterPolicy);
  }
}
