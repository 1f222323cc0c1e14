/** authentication/authentication.go: the bearer-token middleware that fills
    the request context with the token's `email` and `role` claims, and the
    three role gates the handlers call. */
module Authentication {
  import opened Common

  // ---------------------------------------------------------------------
  // Role gates (AdminAuth, UserAuth, CommonAuth)
  // ---------------------------------------------------------------------

  /** A gate lets the request through, refuses it, or panics: the gates read
      the context value with the unchecked assertion `role.(string)`, which
      panics when the value is present but not a string (a token without a
      `role` claim stores `nil`). */
  datatype GateResult = Granted | Denied | GatePanic

  /** AdminAuth: only the string "admin" passes. */
  function AdminAuth(role: Option<CtxValue>): (g: GateResult)
    ensures g == Granted <==> role == Some(Str("admin"))
    ensures g == GatePanic <==> role.Some? && !role.value.Str?
  {
    match role
    case None => Denied
    case Some(v) => if !v.Str? then GatePanic else if v.s != "admin" then Denied else Granted
  }

  /** UserAuth: only the string "user" passes. */
  function UserAuth(role: Option<CtxValue>): (g: GateResult)
    ensures g == Granted <==> role == Some(Str("user"))
    ensures g == GatePanic <==> role.Some? && !role.value.Str?
  {
    match role
    case None => Denied
    case Some(v) => if !v.Str? then GatePanic else if v.s != "user" then Denied else Granted
  }

  /** CommonAuth: "user" or "admin" passes. */
  function CommonAuth(role: Option<CtxValue>): (g: GateResult)
    ensures g == Granted <==> role == Some(Str("user")) || role == Some(Str("admin"))
    ensures g == GatePanic <==> role.Some? && !role.value.Str?
  {
    match role
    case None => Denied
    case Some(v) => if !v.Str? then GatePanic else if v.s != "user" && v.s != "admin" then Denied else Granted
  }

  /** No role value passes both the admin and the user gate. */
  lemma GatesExclusive(role: Option<CtxValue>)
    ensures !(AdminAuth(role) == Granted && UserAuth(role) == Granted)
  {
  }

  /** CommonAuth is exactly the union of the other two gates, and all three
      panic on the same values. */
  lemma CommonIsUnion(role: Option<CtxValue>)
    ensures CommonAuth(role) == Granted <==> AdminAuth(role) == Granted || UserAuth(role) == Granted
    ensures CommonAuth(role) == GatePanic <==> AdminAuth(role) == GatePanic
    ensures UserAuth(role) == GatePanic <==> AdminAuth(role) == GatePanic
  {
  }

  /** A request whose context holds no role passes no gate, and does not panic. */
  lemma AbsentRoleDenied()
    ensures AdminAuth(None) == Denied && UserAuth(None) == Denied && CommonAuth(None) == Denied
  {
  }

  // ---------------------------------------------------------------------
  // Stripping the scheme from the Authorization header
  // ---------------------------------------------------------------------

  const Space: byte := 32

  /** The loop at authentication.go:21-25 ranges over the ORIGINAL header
      but slices the CURRENT token: at every space with byte index `i` the
      token loses its first `i + 1` bytes. After a prefix `s` of the header
      the token has lost this many bytes in all. */
  function SpaceDrop(s: seq<byte>): nat {
    if |s| == 0 then 0 else SpaceDrop(s[..|s| - 1]) + (if s[|s| - 1] == Space then |s| else 0)
  }

  /** What the strip loop leaves: a token, or a panic because a slice went
      past the end of the already shortened token. */
  datatype Stripped = Token(token: seq<byte>) | SlicePanic

  /** The loop's result in closed form: the drops only grow, so the loop
      panics exactly when the total drop exceeds the header's length, and
      otherwise leaves the header without its first `SpaceDrop` bytes. */
  function StripSpec(header: seq<byte>): (r: Stripped)
    ensures r.Token? ==> |r.token| <= |header| && r.token == header[|header| - |r.token|..]
    ensures |header| > 0 && header[|header| - 1] == Space ==> r == SlicePanic || r == Token([])
  {
    var d := SpaceDrop(header);
    if d <= |header| then Token(header[d..]) else SlicePanic
  }

  /** A longer prefix never drops fewer bytes. */
  lemma {:induction false} SpaceDropMonotone(s: seq<byte>, k: nat)
    requires k <= |s|
    ensures SpaceDrop(s[..k]) <= SpaceDrop(s)
  {
    if k < |s| {
      var s' := s[..|s| - 1];
      assert s'[..k] == s[..k];
      SpaceDropMonotone(s', k);
      assert SpaceDrop(s) >= SpaceDrop(s');
    } else {
      assert s[..k] == s;
    }
  }

  /** authentication.go:21-25, byte by byte. Ranging over a Go string visits
      rune starts, and a byte 0x20 is always the start of the rune ' ' at that
      byte index, so visiting every byte index and testing for 0x20 takes the
      same branches. */
  method StripScheme(header: seq<byte>) returns (r: Stripped)
    ensures r == StripSpec(header)
  {
    var token := header;
    var index := 0;
    while index < |header|
      invariant 0 <= index <= |header|
      invariant SpaceDrop(header[..index]) <= |header|
      invariant token == header[SpaceDrop(header[..index])..]
    {
      assert header[..index + 1][..index] == header[..index];
      if header[index] == Space {
        if index + 1 > |token| {
          // tokenString[index+1:] is out of range: a runtime panic
          SpaceDropMonotone(header, index + 1);
          return SlicePanic;
        }
        token := token[index + 1..];
      }
      index := index + 1;
    }
    assert header[..|header|] == header;
    r := Token(token);
  }

  predicate NoSpace(s: seq<byte>) {
    forall i | 0 <= i < |s| :: s[i] != Space
  }

  /** Appending bytes that are not spaces drops nothing more. */
  lemma {:induction false} SpaceDropNoSpaceSuffix(s: seq<byte>, t: seq<byte>)
    requires NoSpace(t)
    ensures SpaceDrop(s + t) == SpaceDrop(s)
  {
    if |t| == 0 {
      assert s + t == s;
    } else {
      var t' := t[..|t| - 1];
      assert (s + t)[..|s + t| - 1] == s + t';
      assert (s + t)[|s + t| - 1] == t[|t| - 1] != Space;
      SpaceDropNoSpaceSuffix(s, t');
    }
  }

  /** A header without a space is the token itself. */
  lemma NoSpaceKeepsHeader(header: seq<byte>)
    requires NoSpace(header)
    ensures StripSpec(header) == Token(header)
  {
    SpaceDropNoSpaceSuffix([], header);
    assert [] + header == header;
  }

  /** With exactly one space, the token is what follows it. */
  lemma OneSpace(scheme: seq<byte>, rest: seq<byte>)
    requires NoSpace(scheme) && NoSpace(rest)
    ensures StripSpec(scheme + [Space] + rest) == Token(rest)
  {
    var h := scheme + [Space] + rest;
    SpaceDropNoSpaceSuffix([], scheme);
    assert [] + scheme == scheme;
    assert (scheme + [Space])[..|scheme|] == scheme;
    SpaceDropNoSpaceSuffix(scheme + [Space], rest);
    assert h[|scheme| + 1..] == rest;
  }

  /** With exactly two spaces the second slice is taken at the second space's
      index in the ORIGINAL header, from a token already shortened by the
      first: the result is a suffix of the text after the second space that
      is `|a| + 1` bytes shorter, or a panic when that text is not longer
      than `a`. */
  lemma TwoSpaces(a: seq<byte>, b: seq<byte>, c: seq<byte>)
    requires NoSpace(a) && NoSpace(b) && NoSpace(c)
    ensures StripSpec(a + [Space] + b + [Space] + c)
         == if |a| < |c| then Token(c[|a| + 1..]) else SlicePanic
  {
    var h := a + [Space] + b + [Space] + c;
    var p1 := a + [Space];
    var p2 := a + [Space] + b + [Space];
    SpaceDropNoSpaceSuffix([], a);
    assert [] + a == a;
    assert p1[..|a|] == a;
    SpaceDropNoSpaceSuffix(p1, b);
    assert p2[..|p2| - 1] == p1 + b;
    SpaceDropNoSpaceSuffix(p2, c);
    assert h == p2 + c;
    assert SpaceDrop(h) == 2 * |a| + |b| + 3;
    if |a| < |c| {
      assert h[2 * |a| + |b| + 3..] == c[|a| + 1..];
    }
  }

  /** "Bearer x y": two spaces, and the second slice would start past the
      end of the shortened token. */
  lemma BearerWithTwoWordsPanics()
    ensures StripSpec([66, 101, 97, 114, 101, 114, 32, 120, 32, 121]) == SlicePanic
  {
    var h: seq<byte> := [66, 101, 97, 114, 101, 114, 32, 120, 32, 121];
    TwoSpaces(h[..6], [120], [121]);
    assert h == h[..6] + [Space] + [120] + [Space] + [121];
  }

  // ---------------------------------------------------------------------
  // The request context and the middleware
  // ---------------------------------------------------------------------

  /** The per-request key/value store of a Gin context (`c.Set`, `c.Get`). */
  class RequestContext {
    var values: map<string, CtxValue>

    constructor ()
      ensures values == map[]
    {
      values := map[];
    }

    /** `c.Get(key)`: the value and whether the key was set. */
    function Get(key: string): (v: Option<CtxValue>)
      reads this
      ensures v.Some? <==> key in values
      ensures v.Some? ==> v.value == values[key]
    {
      if key in values then Some(values[key]) else None
    }

    /** `c.Set(key, v)`: a later `c.Get(key)` finds `v`, and every other key
        reads as before. */
    method Set(key: string, v: CtxValue)
      modifies this
      ensures values == old(values)[key := v]
      ensures Get(key) == Some(v)
      ensures forall k | k != key :: Get(k) == old(Get(k))
    {
      values := values[key := v];
    }
  }

  /** The parser and signature check of the JWT library together with
      `token.Valid`: `None` when parsing failed or the token is not valid,
      otherwise the claim map. The library is not part of this model. */
  type TokenParser = seq<byte> -> Option<Claims>

  /** `claims["exp"].(int64)` succeeded and the value lies before `now`; a
      token without an `int64` `exp` claim is never expired. */
  predicate Expired(claims: Claims, now: int)
    ensures Expired(claims, now) ==> "exp" in claims && claims["exp"].Int64?
  {
    ClaimAt(claims, "exp").Int64? && ClaimAt(claims, "exp").n < now
  }

  /** A token that passed the middleware without a `role` claim leaves
      `nil` under "role", so every gate after it panics; a `role` claim that
      is not a string does the same. */
  lemma RoleClaimNotStringPanics(claims: Claims)
    requires "role" !in claims || !claims["role"].Str?
    ensures var role := Some(ClaimAt(claims, "role"));
      && AdminAuth(role) == GatePanic && UserAuth(role) == GatePanic && CommonAuth(role) == GatePanic
  {
  }

  /** A string `role` claim reaches the gates as it is: "admin" passes the
      admin and the common gate only, "user" the user and the common gate
      only. */
  lemma RoleClaimDecidesGates(claims: Claims)
    requires "role" in claims && claims["role"].Str?
    ensures var role := Some(ClaimAt(claims, "role"));
      && (AdminAuth(role) == Granted <==> claims["role"].s == "admin")
      && (UserAuth(role) == Granted <==> claims["role"].s == "user")
      && (CommonAuth(role) == Granted <==> claims["role"].s in {"admin", "user"})
  {
  }

  /** Whether the handler after the middleware runs, or the middleware
      aborted the request with a response. */
  datatype Outcome = Next | Abort(response: Response)

  /** AuthMiddleware (authentication.go:13-47) over the header value, the
      token parser and the current Unix time. */
  method AuthMiddleware(c: RequestContext, header: seq<byte>, parse: TokenParser, now: int)
    returns (out: Outcome)
    modifies c
    ensures header == [] ==> out == Abort(Reply(TokenMissing))
    ensures header != [] && StripSpec(header) == SlicePanic ==> out == Abort(Reply(Panicked))
    ensures header != [] && StripSpec(header).Token? ==>
      var claims := parse(StripSpec(header).token);
      && (claims.None? ==> out == Abort(Reply(InvalidToken)))
      && (claims.Some? && Expired(claims.value, now) ==> out == Abort(Reply(ExpiredToken)))
      && (claims.Some? && !Expired(claims.value, now) ==> out == Next)
      && (out == Next ==> c.values == old(c.values)["email" := ClaimAt(claims.value, "email")]
                                                    ["role" := ClaimAt(claims.value, "role")])
      && (out == Next ==> c.Get("email") == Some(ClaimAt(claims.value, "email"))
                          && c.Get("role") == Some(ClaimAt(claims.value, "role")))
    ensures out.Abort? ==> c.values == old(c.values)
  {
    if header == [] {
      return Abort(Reply(TokenMissing));
    }
    var stripped := StripScheme(header);
    if stripped == SlicePanic {
      return Abort(Reply(Panicked));
    }
    var parsed := parse(stripped.token);
    if parsed.None? {
      return Abort(Reply(InvalidToken));
    }
    var claims := parsed.value;
    var exp := ClaimAt(claims, "exp");
    if exp.Int64? && exp.n < now {
      return Abort(Reply(ExpiredToken));
    }
    c.Set("email", ClaimAt(claims, "email"));
    c.Set("role", ClaimAt(claims, "role"));
    out := Next;
  }
}
