/** The phone-number helpers and the login result of the front end's
    authentication service: a fixed two-country table, JavaScript
    `slice` and string concatenation. */
module PhoneAuth {
  import opened JsValues

  datatype Country = US | UK

  /** `Object.entries(countryConfigs)`, in declaration order. */
  const CountryConfigs: seq<(string, Country)> := [("US", US), ("UK", UK)]

  function Code(c: Country): string
  {
    match c
    case US => "+1"
    case UK => "+44"
  }

  /** The characters `format` inserts around the digits. */
  function Decoration(c: Country): set<char>
  {
    match c
    case US => {'(', ')', ' ', '-'}
    case UK => {' '}
  }

  function Clamp(i: nat, n: nat): nat
  {
    if i <= n then i else n
  }

  /** JavaScript `s.slice(start, end)` for non-negative arguments: both
      ends are clamped to the length, and crossed ends give "". */
  function Slice(s: string, start: nat, end: nat): (r: string)
    ensures |r| == if Clamp(start, |s|) <= Clamp(end, |s|) then Clamp(end, |s|) - Clamp(start, |s|) else 0
    ensures r <= s[Clamp(start, |s|)..]
  {
    var a := Clamp(start, |s|);
    var b := Clamp(end, |s|);
    if a <= b then s[a..b] else ""
  }

  /** JavaScript `s.slice(start)`: what `s.slice(0, start)` leaves over. */
  function SliceFrom(s: string, start: nat): (r: string)
    ensures Slice(s, 0, start) + r == s
  {
    var cut := Clamp(start, |s|);
    assert s[..cut] + s[cut..] == s;
    Slice(s, start, |s|)
  }

  /** The `format` arrow function of a country's entry: it keeps every
      character of the number and adds the decoration, four characters for
      the US and two for the UK. */
  function FormatLocal(c: Country, num: string): (r: string)
    ensures |r| == |num| + (if c == US then 4 else 2)
  {
    SlicesCover(num, 3, 6);
    SlicesCover(num, 4, 7);
    match c
    case US => "(" + Slice(num, 0, 3) + ") " + Slice(num, 3, 6) + "-" + SliceFrom(num, 6)
    case UK => Slice(num, 0, 4) + " " + Slice(num, 4, 7) + " " + SliceFrom(num, 7)
  }

  /** `\d` of a JavaScript regular expression: ASCII digits only. */
  predicate IsDigit(c: char)
  {
    '0' <= c <= '9'
  }

  /** `Array.prototype.find` over the entries: the first whose code matches. */
  function Find(entries: seq<(string, Country)>, code: string): (r: Option<Country>)
    ensures r.Some? ==> Code(r.value) == code && exists k | 0 <= k < |entries| :: entries[k].1 == r.value
    ensures r.None? ==> forall k | 0 <= k < |entries| :: Code(entries[k].1) != code
  {
    if entries == [] then None
    else if Code(entries[0].1) == code then Some(entries[0].1)
    else
      var rest := Find(entries[1..], code);
      assert forall k | 1 <= k < |entries| :: entries[k] == entries[1..][k - 1];
      rest
  }

  /** The country a dialling code selects: exactly "+1" and "+44" are known. */
  function FindCountry(countryCode: string): (r: Option<Country>)
    ensures r.Some? <==> countryCode == "+1" || countryCode == "+44"
    ensures r.Some? ==> Code(r.value) == countryCode
  {
    assert CountryConfigs[0].1 == US && CountryConfigs[1].1 == UK;
    Find(CountryConfigs, countryCode)
  }

  /** `formatPhoneNumber`: the code, a space, then the number as the
      country formats it, or unchanged for an unknown code. */
  function FormatPhoneNumber(countryCode: string, number: string): (r: string)
    ensures |r| == |countryCode| + 1 + |number| + DecorationLength(countryCode)
    ensures r[..|countryCode| + 1] == countryCode + " "
  {
    match FindCountry(countryCode)
    case None => countryCode + " " + number
    case Some(c) => countryCode + " " + FormatLocal(c, number)
  }

  /** `validatePhoneNumber`: a known code, and a number of exactly ten ASCII digits. */
  function ValidatePhoneNumber(countryCode: string, number: string): (ok: bool)
    ensures ok <==> && (countryCode == "+1" || countryCode == "+44")
                    && |number| == 10
                    && forall k | 0 <= k < |number| :: IsDigit(number[k])
  {
    match FindCountry(countryCode)
    case None => false
    case Some(c) => |number| == 10 && forall k | 0 <= k < |number| :: IsDigit(number[k])
  }

  /** How many characters formatting adds after the code and its space. */
  function DecorationLength(countryCode: string): nat
  {
    match FindCountry(countryCode)
    case None => 0
    case Some(US) => 4
    case Some(UK) => 2
  }

  /** The inverse of `FormatPhoneNumber`: drop the code and its space, then
      the decoration at the places where it was inserted, which the length
      of the formatted text fixes. */
  function StripFormatting(countryCode: string, formatted: string): string
    requires |formatted| >= |countryCode| + 1 + DecorationLength(countryCode)
  {
    var local := formatted[|countryCode| + 1..];
    match FindCountry(countryCode)
    case None => local
    case Some(c) => StripLocal(c, local)
  }

  /** The inverse of `FormatLocal`, cutting at the places the length fixes. */
  function StripLocal(c: Country, local: string): string
    requires |local| >= DecorationLength(Code(c))
  {
    match c
    case US =>
      var m: nat := |local| - 4;
      var a, b := Clamp(3, m), Clamp(6, m);
      local[1..1 + a] + local[3 + a..3 + b] + local[4 + b..]
    case UK =>
      var m: nat := |local| - 2;
      var a, b := Clamp(4, m), Clamp(7, m);
      local[..a] + local[a + 1..b + 1] + local[b + 2..]
  }

  /** The pieces `format` cuts are the number, in order. */
  lemma SlicesCover(s: string, a: nat, b: nat)
    requires a <= b
    ensures Slice(s, 0, a) + Slice(s, a, b) + SliceFrom(s, b) == s
    ensures |Slice(s, 0, a)| == Clamp(a, |s|) && |Slice(s, a, b)| == Clamp(b, |s|) - Clamp(a, |s|)
  {
    var x, y := Clamp(a, |s|), Clamp(b, |s|);
    assert s[..x] + s[x..y] + s[y..] == s;
  }

  /** For "+1": `"+1 (" + n.slice(0,3) + ") " + n.slice(3,6) + "-" + n.slice(6)`. */
  lemma FormatUs(number: string)
    ensures FormatPhoneNumber("+1", number) ==
              "+1 (" + Slice(number, 0, 3) + ") " + Slice(number, 3, 6) + "-" + SliceFrom(number, 6)
  {
  }

  /** For "+44": `"+44 " + n.slice(0,4) + " " + n.slice(4,7) + " " + n.slice(7)`. */
  lemma FormatUk(number: string)
    ensures FormatPhoneNumber("+44", number) ==
              "+44 " + Slice(number, 0, 4) + " " + Slice(number, 4, 7) + " " + SliceFrom(number, 7)
  {
  }

  /** Any other code: the code, a space and the number as given. */
  lemma FormatUnknown(countryCode: string, number: string)
    requires countryCode != "+1" && countryCode != "+44"
    ensures FormatPhoneNumber(countryCode, number) == countryCode + " " + number
  {
  }

  lemma {:induction false} StripLocalUs(number: string)
    ensures StripLocal(US, FormatLocal(US, number)) == number
  {
    var p, q, r := Slice(number, 0, 3), Slice(number, 3, 6), SliceFrom(number, 6);
    SlicesCover(number, 3, 6);
    var local := FormatLocal(US, number);
    assert local == "(" + p + ") " + q + "-" + r;
    var a, b := Clamp(3, |number|), Clamp(6, |number|);
    assert |p| == a && |q| == b - a && |r| == |number| - b;
    assert local[1..1 + a] == p;
    assert local[3 + a..3 + b] == q;
    assert local[4 + b..] == r;
  }

  lemma {:induction false} StripLocalUk(number: string)
    ensures StripLocal(UK, FormatLocal(UK, number)) == number
  {
    var p, q, r := Slice(number, 0, 4), Slice(number, 4, 7), SliceFrom(number, 7);
    SlicesCover(number, 4, 7);
    var local := FormatLocal(UK, number);
    assert local == p + " " + q + " " + r;
    var a, b := Clamp(4, |number|), Clamp(7, |number|);
    assert |p| == a && |q| == b - a && |r| == |number| - b;
    assert local[..a] == p;
    assert local[a + 1..b + 1] == q;
    assert local[b + 2..] == r;
  }

  /** Formatting loses nothing: stripping the code and the decoration gives
      the number back, for every code and every number. */
  lemma StripFormattingRoundTrip(countryCode: string, number: string)
    ensures var formatted := FormatPhoneNumber(countryCode, number);
            |formatted| >= |countryCode| + 1 + DecorationLength(countryCode)
            && StripFormatting(countryCode, formatted) == number
  {
    var formatted := FormatPhoneNumber(countryCode, number);
    match FindCountry(countryCode)
    case None =>
      assert formatted[|countryCode| + 1..] == number;
    case Some(c) =>
      assert formatted[|countryCode| + 1..] == FormatLocal(c, number);
      if c == US { StripLocalUs(number); } else { StripLocalUk(number); }
  }

  /** s with every character of `drop` deleted. */
  function Without(s: string, drop: set<char>): string
  {
    if s == [] then []
    else (if s[0] in drop then [] else [s[0]]) + Without(s[1..], drop)
  }

  lemma {:induction false} WithoutDistributes(s: string, t: string, drop: set<char>)
    ensures Without(s + t, drop) == Without(s, drop) + Without(t, drop)
    decreases |s|
  {
    if s == [] {
      assert s + t == t;
    } else {
      assert (s + t)[0] == s[0] && (s + t)[1..] == s[1..] + t;
      WithoutDistributes(s[1..], t, drop);
    }
  }

  lemma {:induction false} WithoutKeepsClean(s: string, drop: set<char>)
    requires forall k | 0 <= k < |s| :: s[k] !in drop
    ensures Without(s, drop) == s
    decreases |s|
  {
    if s != [] {
      WithoutKeepsClean(s[1..], drop);
    }
  }

  lemma WithoutSlice(s: string, a: nat, b: nat, drop: set<char>)
    requires forall k | 0 <= k < |s| :: s[k] !in drop
    ensures Without(Slice(s, a, b), drop) == Slice(s, a, b)
  {
    var piece := Slice(s, a, b);
    assert forall k | 0 <= k < |piece| :: piece[k] in s;
    WithoutKeepsClean(piece, drop);
  }

  lemma WithoutDecorationUs(number: string)
    requires forall k | 0 <= k < |number| :: number[k] !in Decoration(US)
    ensures Without(FormatLocal(US, number), Decoration(US)) == number
  {
    var drop := Decoration(US);
    var p, q, r := Slice(number, 0, 3), Slice(number, 3, 6), SliceFrom(number, 6);
    WithoutSlice(number, 0, 3, drop);
    WithoutSlice(number, 3, 6, drop);
    WithoutSlice(number, 6, |number|, drop);
    WithoutDistributes("(" + p + ") " + q + "-", r, drop);
    WithoutDistributes("(" + p + ") " + q, "-", drop);
    WithoutDistributes("(" + p + ") ", q, drop);
    WithoutDistributes("(" + p, ") ", drop);
    WithoutDistributes("(", p, drop);
    assert Without(" ", drop) == [];
    assert Without(") ", drop) == [];
    SlicesCover(number, 3, 6);
  }

  lemma WithoutDecorationUk(number: string)
    requires forall k | 0 <= k < |number| :: number[k] !in Decoration(UK)
    ensures Without(FormatLocal(UK, number), Decoration(UK)) == number
  {
    var drop := Decoration(UK);
    var p, q, r := Slice(number, 0, 4), Slice(number, 4, 7), SliceFrom(number, 7);
    WithoutSlice(number, 0, 4, drop);
    WithoutSlice(number, 4, 7, drop);
    WithoutSlice(number, 7, |number|, drop);
    WithoutDistributes(p + " " + q + " ", r, drop);
    WithoutDistributes(p + " " + q, " ", drop);
    WithoutDistributes(p + " ", q, drop);
    WithoutDistributes(p, " ", drop);
    SlicesCover(number, 4, 7);
  }

  /** For a known code and a number that holds none of the country's
      decoration characters, deleting those characters after the code and
      its space gives the number back. */
  lemma DeletingDecorationRestoresNumber(countryCode: string, number: string)
    requires FindCountry(countryCode).Some?
    requires forall k | 0 <= k < |number| :: number[k] !in Decoration(FindCountry(countryCode).value)
    ensures var formatted := FormatPhoneNumber(countryCode, number);
            |formatted| > |countryCode| &&
            Without(formatted[|countryCode| + 1..], Decoration(FindCountry(countryCode).value)) == number
  {
    var c := FindCountry(countryCode).value;
    assert FormatPhoneNumber(countryCode, number)[|countryCode| + 1..] == FormatLocal(c, number);
    if c == US { WithoutDecorationUs(number); } else { WithoutDecorationUk(number); }
  }

  /** A valid US number is laid out as `+1 (ddd) ddd-dddd`. */
  lemma ValidUsNumberLayout(number: string)
    requires ValidatePhoneNumber("+1", number)
    ensures FormatPhoneNumber("+1", number) ==
              "+1 (" + number[..3] + ") " + number[3..6] + "-" + number[6..]
    ensures |FormatPhoneNumber("+1", number)| == 17
  {
  }

  /** `identifier: string | PhoneNumber`. */
  datatype Identifier = Text(text: string) | PhoneNumber(countryCode: string, number: string)

  /** `type` is checked at run time against the three supported kinds. */
  datatype LoginCredentials = LoginCredentials(kind: string, identifier: Identifier, password: string)

  datatype LoginUser = LoginUser(id: string, email: Option<Identifier>, username: Option<Identifier>, phone: Option<Identifier>)

  datatype LoginResult = LoginResult(success: bool, user: LoginUser)

  /** The promise `login` returns: a result, or a rejection with the thrown message. */
  datatype LoginOutcome = LoggedIn(result: LoginResult) | Rejected(error: string)

  /** `login` is a stub: it succeeds for each supported kind, with user id
      "1" and the identifier in exactly the field that matches the kind. */
  function Login(credentials: LoginCredentials): (r: LoginOutcome)
    ensures r.LoggedIn? <==> credentials.kind in {"email", "phone", "username"}
    ensures r.Rejected? ==> r.error == "Unsupported login method"
    ensures r.LoggedIn? ==>
              var u := r.result.user;
              && r.result.success && u.id == "1"
              && (u.email.Some? <==> credentials.kind == "email")
              && (u.username.Some? <==> credentials.kind == "username")
              && (u.phone.Some? <==> credentials.kind == "phone")
              && (u.email.Some? ==> u.email.value == credentials.identifier)
              && (u.username.Some? ==> u.username.value == credentials.identifier)
              && (u.phone.Some? ==> u.phone.value == credentials.identifier)
  {
    if credentials.kind !in {"email", "phone", "username"} then Rejected("Unsupported login method")
    else
      var id := credentials.identifier;
      LoggedIn(LoginResult(true, LoginUser(
        "1",
        if credentials.kind == "email" then Some(id) else None,
        if credentials.kind == "username" then Some(id) else None,
        if credentials.kind == "phone" then Some(id) else None)))
  }
}
