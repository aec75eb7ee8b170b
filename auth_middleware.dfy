/** The authentication middleware: the ordered chain of early-return guards
    that either lets a request through (with the caller's user attached
    when a token was checked) or answers it with an error status. Decoding
    and verifying the token is a parameter: it yields the token's claims or
    fails. */
module AuthMiddleware {
  import opened Common
  import opened Records

  /** A claim value in a decoded token payload. */
  datatype Claim = Text(s: string) | Number(n: int) | Flag(b: bool) | Null

  type Payload = map<string, Claim>

  /** The parts of a request the middleware reads; `accessToken` is the
      `access_token` cookie when present. */
  datatype Request = Request(httpMethod: string, path: string, accessToken: Option<string>)

  /** The middleware's verdict: hand the request on (with the user it
      attached, if any), answer with a status, or fail with an uncaught
      exception (a 500). */
  datatype Decision = Forward(user: Option<User>) | Reject(status: int, detail: string) | ServerError

  /** The paths that need no login. */
  const ExcludePaths: set<string> :=
    {"/auth/login", "/auth/register", "/openapi.json", "/docs", "/redoc", "/", "/product/", "/product/search"}

  /** `s.rstrip(c)`: `s` without its trailing run of `c`. */
  function RStrip(s: string, c: char): (r: string)
    ensures |r| <= |s| && r == s[..|r|]
    ensures r == [] || r[|r| - 1] != c
    ensures forall i | |r| <= i < |s| :: s[i] == c
  {
    if |s| > 0 && s[|s| - 1] == c then
      var r := RStrip(s[..|s| - 1], c);
      assert s[..|s| - 1][..|r|] == s[..|r|];
      r
    else s
  }

  predicate StartsWith(s: string, prefix: string)
  {
    |prefix| <= |s| && s[..|prefix|] == prefix
  }

  /** A path is excluded when it, or it with its trailing slashes removed,
      is one of `excluded`. */
  predicate Excluded(excluded: set<string>, path: string)
  {
    path in excluded || RStrip(path, '/') in excluded
  }

  /** Reading products is public: GET on "/product" or below "/product/". */
  predicate PublicProductRead(req: Request)
  {
    req.httpMethod == "GET" && (StartsWith(req.path, "/product/") || req.path == "/product")
  }

  /** Whether the token check applies to `req` at all. */
  predicate Gated(excluded: set<string>, req: Request)
  {
    req.httpMethod != "OPTIONS" && !Excluded(excluded, req.path) && !PublicProductRead(req)
  }

  /** `payload.get(key)` */
  function Get(payload: Payload, key: string): Option<Claim>
  {
    if key in payload then Some(payload[key]) else None
  }

  /** Python truthiness of a claim that may be absent. */
  predicate Truthy(c: Option<Claim>)
  {
    match c
    case None => false
    case Some(Text(s)) => s != ""
    case Some(Number(n)) => n != 0
    case Some(Flag(b)) => b
    case Some(Null) => false
  }

  // ------------------------------------------------------- int(user_id)

  predicate AllDigits(s: string)
  {
    forall i | 0 <= i < |s| :: '0' <= s[i] <= '9'
  }

  /** The value of a string of decimal digits. */
  function DigitsValue(s: string): nat
    requires AllDigits(s)
  {
    if s == [] then 0
    else DigitsValue(s[..|s| - 1]) * 10 + (s[|s| - 1] as int - '0' as int)
  }

  /** `int(s)` on a string: an optional sign and at least one digit. */
  function ParseInt(s: string): Option<int>
  {
    if |s| > 1 && (s[0] == '-' || s[0] == '+') && AllDigits(s[1..]) then
      var v: int := DigitsValue(s[1..]);
      Some(if s[0] == '-' then -v else v)
    else if |s| > 0 && AllDigits(s) then Some(DigitsValue(s))
    else None
  }

  /** The decimal digits of `n`. */
  function Digits(n: nat): string
  {
    if n < 10 then [('0' as int + n) as char]
    else Digits(n / 10) + [('0' as int + n % 10) as char]
  }

  /** `str(n)` */
  function ShowInt(n: int): string
  {
    if n < 0 then "-" + Digits(-n) else Digits(n)
  }

  lemma {:induction false} DigitsRoundTrip(n: nat)
    ensures |Digits(n)| > 0 && AllDigits(Digits(n))
    ensures DigitsValue(Digits(n)) == n
    decreases n
  {
    if n >= 10 {
      DigitsRoundTrip(n / 10);
      var d := Digits(n);
      assert d[..|d| - 1] == Digits(n / 10);
    }
  }

  /** `int(str(n)) == n`: the user id login writes into the token reads back. */
  lemma ParseShowInt(n: int)
    ensures ParseInt(ShowInt(n)) == Some(n)
  {
    if n < 0 {
      DigitsRoundTrip(-n);
      assert ShowInt(n)[1..] == Digits(-n);
    } else {
      DigitsRoundTrip(n);
    }
  }

  /** `int(x)` on a claim: no value for a string that is not a number or
      for a null (the exception escapes the middleware). */
  function ToInt(c: Claim): Option<int>
  {
    match c
    case Text(s) => ParseInt(s)
    case Number(n) => Some(n)
    case Flag(b) => Some(if b then 1 else 0)
    case Null => None
  }

  // ------------------------------------------------------------ dispatch

  /** The guard chain over the exclusion set `excluded`. */
  function Chain(excluded: set<string>, decode: string -> Option<Payload>, users: map<int, User>, req: Request): Decision
  {
    if req.httpMethod == "OPTIONS" then Forward(None)
    else if Excluded(excluded, req.path) then Forward(None)
    else if PublicProductRead(req) then Forward(None)
    else if req.accessToken.None? || req.accessToken.value == "" then Reject(401, "You are not logged in")
    else
      match decode(req.accessToken.value)
      case None => Reject(401, "Invalid token")
      case Some(payload) =>
        var sub := Get(payload, "sub");
        if Get(payload, "type") != Some(Text("access")) then Reject(401, "Token Type must be 'access'")
        else if !Truthy(sub) then Reject(400, "User not found")
        else
          match ToInt(sub.value)
          case None => ServerError
          case Some(id) => if id in users then Forward(Some(users[id])) else Reject(404, "User not found")
  }

  /** `AuthenticationMiddleware.dispatch` */
  function Dispatch(decode: string -> Option<Payload>, users: map<int, User>, req: Request): Decision
  {
    Chain(ExcludePaths, decode, users, req)
  }

  /** The user id a valid access token names. */
  predicate NamesUser(decode: string -> Option<Payload>, users: map<int, User>, token: string, u: User)
  {
    && decode(token).Some?
    && Get(decode(token).value, "type") == Some(Text("access"))
    && Truthy(Get(decode(token).value, "sub"))
    && ToInt(Get(decode(token).value, "sub").value).Some?
    && ToInt(Get(decode(token).value, "sub").value).value in users
    && users[ToInt(Get(decode(token).value, "sub").value).value] == u
  }

  /** Pre-flight requests pass before any other check. */
  lemma OptionsPass(decode: string -> Option<Payload>, users: map<int, User>, req: Request)
    requires req.httpMethod == "OPTIONS"
    ensures Dispatch(decode, users, req) == Forward(None)
  {
  }

  /** An excluded path that does not end in a slash passes without a
      token, with any number of trailing slashes added. */
  lemma ExcludedPathsPass(decode: string -> Option<Payload>, users: map<int, User>, m: string, e: string, extra: nat)
    requires e in ExcludePaths && e != [] && e[|e| - 1] != '/'
    ensures Dispatch(decode, users, Request(m, e + seq(extra, _ => '/'), None)) == Forward(None)
  {
    RStripSlashes(e, extra);
  }

  /** The two excluded paths that end in a slash pass only as written:
      "//" strips to the empty path and "/product//" to "/product", neither
      of them excluded, so outside GET both need a token. */
  lemma ExclusionIsExact(decode: string -> Option<Payload>, users: map<int, User>, m: string)
    ensures Dispatch(decode, users, Request(m, "/", None)) == Forward(None)
    ensures Dispatch(decode, users, Request(m, "/product/", None)) == Forward(None)
    ensures m != "OPTIONS" && m != "GET" ==> Dispatch(decode, users, Request(m, "//", None)) == Reject(401, "You are not logged in")
    ensures m != "OPTIONS" && m != "GET" ==> Dispatch(decode, users, Request(m, "/product//", None)) == Reject(401, "You are not logged in")
  {
    assert RStrip("//", '/') == [] by {
      assert RStrip("/", '/') == [];
    }
    assert "//" !in ExcludePaths by {
      assert |"//"| == 2;
    }
    var pp := "/product//";
    assert RStrip(pp, '/') == "/product" by {
      assert pp[..|pp| - 1] == "/product/";
      assert "/product/"[..8] == "/product";
    }
    assert pp !in ExcludePaths && "/product" !in ExcludePaths by {
      assert |pp| == 10 && |"/product"| == 8;
    }
  }

  /** A path that merely extends an excluded one is not excluded. */
  lemma ExtendedPathIsGated(decode: string -> Option<Payload>, users: map<int, User>, m: string)
    ensures m != "OPTIONS" ==> Dispatch(decode, users, Request(m, "/auth/loginx", None)) == Reject(401, "You are not logged in")
  {
    var q := "/auth/loginx";
    assert RStrip(q, '/') == q;
    assert q !in ExcludePaths by {
      assert |q| == 12;
    }
    assert q[..9] != "/product/" by {
      assert q[1] == 'a';
    }
  }

  lemma {:induction false} RStripSlashes(s: string, extra: nat)
    requires s == [] || s[|s| - 1] != '/'
    ensures RStrip(s + seq(extra, _ => '/'), '/') == s
    decreases extra
  {
    if extra > 0 {
      var t := s + seq(extra, _ => '/');
      assert t[..|t| - 1] == s + seq(extra - 1, _ => '/');
      RStripSlashes(s, extra - 1);
    } else {
      assert s + seq(extra, _ => '/') == s;
    }
  }

  /** GET below "/product/" passes without a token; any other method on a
      product item is gated. */
  lemma ProductReadsArePublic(decode: string -> Option<Payload>, users: map<int, User>, rest: string, token: Option<string>)
    requires rest != [] && '/' !in rest && rest != "search"
    ensures Dispatch(decode, users, Request("GET", "/product/" + rest, token)) == Forward(None)
    ensures Dispatch(decode, users, Request("DELETE", "/product/" + rest, None)) == Reject(401, "You are not logged in")
  {
    var p := "/product/" + rest;
    assert p[..9] == "/product/";
    assert RStrip(p, '/') == p by {
      assert p[|p| - 1] == rest[|rest| - 1];
    }
    assert p !in ExcludePaths by {
      assert p[9..] == rest && p[1] == 'p' && |p| > 9;
    }
  }

  /** Once the token check applies, its outcomes come in this order: no
      cookie, an undecodable token, a token that is not an access token, a
      missing user id, a user id that is not a number, an unknown user. */
  lemma TokenChecksInOrder(decode: string -> Option<Payload>, users: map<int, User>, req: Request)
    requires Gated(ExcludePaths, req)
    ensures req.accessToken.None? || req.accessToken == Some("") ==>
              Dispatch(decode, users, req) == Reject(401, "You are not logged in")
    ensures req.accessToken.Some? && req.accessToken.value != "" ==>
              var d := decode(req.accessToken.value);
              && (d.None? ==> Dispatch(decode, users, req) == Reject(401, "Invalid token"))
              && (d.Some? && Get(d.value, "type") != Some(Text("access")) ==>
                    Dispatch(decode, users, req) == Reject(401, "Token Type must be 'access'"))
              && (d.Some? && Get(d.value, "type") == Some(Text("access")) && !Truthy(Get(d.value, "sub")) ==>
                    Dispatch(decode, users, req) == Reject(400, "User not found"))
              && (d.Some? && Get(d.value, "type") == Some(Text("access")) && Truthy(Get(d.value, "sub"))
                  && ToInt(Get(d.value, "sub").value).None? ==>
                    Dispatch(decode, users, req) == ServerError)
              && (d.Some? && Get(d.value, "type") == Some(Text("access")) && Truthy(Get(d.value, "sub"))
                  && ToInt(Get(d.value, "sub").value).Some? && ToInt(Get(d.value, "sub").value).value !in users ==>
                    Dispatch(decode, users, req) == Reject(404, "User not found"))
  {
  }

  /** A gated request is handed on with a user attached exactly when its
      token is a valid access token naming a stored user, and then with
      that user; an ungated request is handed on without one. */
  lemma ForwardsTokenUser(decode: string -> Option<Payload>, users: map<int, User>, req: Request, u: User)
    ensures Dispatch(decode, users, req) == Forward(Some(u)) <==>
              && Gated(ExcludePaths, req)
              && req.accessToken.Some? && req.accessToken.value != ""
              && NamesUser(decode, users, req.accessToken.value, u)
    ensures !Gated(ExcludePaths, req) ==> Dispatch(decode, users, req) == Forward(None)
  {
  }

  /** The token login issues carries `"sub": str(id)` and `"type": "access"`
      (and an expiry, which the decoder has already checked); it lets its
      user through every gated path. */
  lemma LoginTokenAdmits(decode: string -> Option<Payload>, users: map<int, User>, req: Request, id: int)
    requires Gated(ExcludePaths, req)
    requires req.accessToken.Some? && req.accessToken.value != ""
    requires decode(req.accessToken.value).Some?
    requires Get(decode(req.accessToken.value).value, "sub") == Some(Text(ShowInt(id)))
    requires Get(decode(req.accessToken.value).value, "type") == Some(Text("access"))
    requires id in users
    ensures Dispatch(decode, users, req) == Forward(Some(users[id]))
  {
    ParseShowInt(id);
    DigitsRoundTrip(if id < 0 then -id else id);
  }
}
