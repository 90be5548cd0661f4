/** The standalone registration function: no router, every request that is
    not a preflight is a registration, limited with a 15-minute window
    and 100 requests. */
module RegisterUser {
  import opened JsValues
  import opened Http
  import opened Validators
  import RateLimit
  import Gateway

  const RateLimitWindowMs: int := 15 * 60 * 1000
  const RateLimitMaxRequests: int := 100
  const LimiterPolicy: RateLimit.Policy := RateLimit.Policy(RateLimitWindowMs, RateLimitMaxRequests)

  /** Registration once the limiter has answered `limited`. A provider
      error is reported by its message alone. */
  function Register(limited: bool, request: JsonBody, signUp: Outcome<AuthUser>): (h: Handled)
    ensures CarriesCors(h.response)
    ensures limited ==> h == Handled(CreateResponse(Error(TooManyRequests), 429), [])
    ensures !limited && request.Unparsable? ==> h == Handled(Fault(request.message), [])
    ensures !limited && request.Parsed? && !(Truthy(request.fields.email) && Truthy(request.fields.password)) ==>
              h == Handled(CreateResponse(Error(CredentialsRequired), 400), [])
    // the address is checked before the password
    ensures !limited && request.Parsed? && Truthy(request.fields.email) && Truthy(request.fields.password) &&
            !ValidateEmail(request.fields.email.value) ==>
              h == Handled(CreateResponse(Error(InvalidEmail), 400), [])
    ensures !limited && request.Parsed? && Truthy(request.fields.email) && Truthy(request.fields.password) &&
            ValidateEmail(request.fields.email.value) && !ValidatePassword(request.fields.password.value) ==>
              h == Handled(CreateResponse(Error(WeakPassword), 400), [])
    ensures h.calls != [] <==>
              !limited && request.Parsed? && AcceptsCredentials(request.fields.email, request.fields.password)
    ensures h.calls != [] ==> h.calls == [SignUp(request.fields.email.value, request.fields.password.value)]
    ensures h.response.status == 200 <==> h.calls != [] && signUp.Ok?
    ensures h.response.status == 200 ==> h.response.body == UserBody(Created(signUp.data))
    ensures h.calls != [] && signUp.Failed? ==> h.response == CreateResponse(Error(signUp.error.message), 400)
    ensures h.calls != [] && signUp.NoData? ==> h.response == CreateResponse(Error(NoUserData), 404)
    ensures h.calls != [] && signUp.Threw? ==> h.response == Fault(signUp.message)
  {
    if limited then Handled(CreateResponse(Error(TooManyRequests), 429), [])
    else
      match request
      case Unparsable(m) => Handled(Fault(m), [])
      case Parsed(f) =>
        if !Truthy(f.email) || !Truthy(f.password) then Handled(CreateResponse(Error(CredentialsRequired), 400), [])
        else if !ValidateEmail(f.email.value) then Handled(CreateResponse(Error(InvalidEmail), 400), [])
        else if !ValidatePassword(f.password.value) then Handled(CreateResponse(Error(WeakPassword), 400), [])
        else
          var calls := [SignUp(f.email.value, f.password.value)];
          match signUp
          case Threw(m) => Handled(Fault(m), calls)
          case Failed(e) => Handled(CreateResponse(Error(e.message), 400), calls)
          case Ok(user) => Handled(CreateResponse(UserBody(Created(user)), 200), calls)
          case NoData => Handled(CreateResponse(Error(NoUserData), 404), calls)
  }

  /** The function's whole entry point: preflight, else client key, limiter, `Register`. */
  method HandleUserRegistration(store: RateLimit.RateLimitStore, req: Request, now: int,
                                fault: RateLimit.StoreFault, signUp: Outcome<AuthUser>)
    returns (h: Handled)
    modifies store
    ensures req.httpMethod == "OPTIONS" ==> h == Handled(PreflightResponse(), []) && store.rows == old(store.rows)
    ensures req.httpMethod != "OPTIONS" ==>
              var d := RateLimit.Step(old(store.rows), ClientKey(req.headers), now, fault, LimiterPolicy);
              store.rows == d.rows && h == Register(d.limited, req.body, signUp)
  {
    if req.httpMethod == "OPTIONS" {
      return Handled(PreflightResponse(), []);
    }
    var clientIp := ClientKey(req.headers);
    var limited := store.IsRateLimited(clientIp, now, fault, LimiterPolicy);
    h := Register(limited, req.body, signUp);
  }

  /** The two registration handlers give the same status and make the same
      calls on every input; their bodies differ only in the `details` the
      gateway adds to a provider error. */
  lemma RegisterAgreesWithGateway(limited: bool, request: JsonBody, signUp: Outcome<AuthUser>)
    ensures var mine := Register(limited, request, signUp);
            var gateway := Gateway.Register(limited, request, signUp);
            && mine.response.status == gateway.response.status
            && mine.calls == gateway.calls
            && mine.response.headers == gateway.response.headers
            && (gateway.response.body.ErrorWithDetails? ==>
                  mine.response.body == Error(gateway.response.body.error))
            && (!gateway.response.body.ErrorWithDetails? ==> mine.response.body == gateway.response.body)
  {
  }

  /** With this policy the 101st attempt from one client inside one fresh
      window is answered 429, whatever its body, after a hundred were let through. */
  lemma HundredFirstRegistrationRejected(rows: RateLimit.Table, attempts: seq<RateLimit.Attempt>,
                                         request: JsonBody, signUp: Outcome<AuthUser>)
    requires |attempts| == 101
    requires forall i | 0 <= i < |attempts| ::
               attempts[i].clientIp == attempts[0].clientIp && attempts[i].fault.None?
    requires var key := attempts[0].clientIp;
             key !in rows || attempts[0].now - rows[key].timestamp >= RateLimitWindowMs
    requires forall i | 1 <= i < |attempts| :: attempts[i].now - attempts[0].now < RateLimitWindowMs
    ensures var t := RateLimit.Run(rows, attempts, LimiterPolicy);
            && (forall i | 0 <= i < 100 :: !t.limited[i])
            && t.limited[100]
            && Register(t.limited[100], request, signUp).response.status == 429
  {
    RateLimit.FreshWindowAdmitsExactlyMax(rows, attempts, LimiterPolicy);
  }
}
