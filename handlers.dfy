/** handlers/handlers.go: one method per HTTP handler over an abstract store
    of the three tables. Each method is the handler's chain of early returns;
    its contract says which check decides the response and how each table
    changes. */
module Handlers {
  import opened Common
  import opened GoText
  import opened Records
  import opened Validation
  import opened Authentication

  /** bcrypt as an oracle: `generate` is `GenerateFromPassword` (it may fail,
      and newer versions of the library refuse passwords over 72 bytes),
      `matches(hash, plain)` is `CompareHashAndPassword` returning no error. */
  datatype Hasher = Hasher(generate: string -> Option<string>, matches: (string, string) -> bool)

  /** What any bcrypt implementation promises: a hash it produced matches
      the plaintext it was produced from. */
  ghost predicate MatchesOwnPlaintext(h: Hasher) {
    forall p | h.generate(p).Some? :: h.matches(h.generate(p).value, p)
  }

  /** The 72 key bytes bcrypt's Blowfish setup reads from a password: its
      bytes with a NUL appended, repeated cyclically (`expensiveBlowfishSetup`
      and `blowfish.ExpandKey` in golang.org/x/crypto). */
  function BcryptKey(p: seq<byte>): (k: seq<byte>)
    ensures |k| == 72
  {
    var b := p + [0];
    seq(72, i requires 0 <= i < 72 => b[i % |b|])
  }

  /** bcrypt decides a match by the key alone: a hash matches exactly the
      plaintexts with the same key (no two keys are taken to give the same
      hash). */
  ghost predicate BcryptHasher(h: Hasher) {
    forall p, q | h.generate(p).Some? ::
      h.matches(h.generate(p).value, q) <==> BcryptKey(Bytes(q)) == BcryptKey(Bytes(p))
  }

  /** A bcrypt hasher matches each hash against its own plaintext. */
  lemma BcryptMatchesOwnPlaintext(h: Hasher)
    requires BcryptHasher(h)
    ensures MatchesOwnPlaintext(h)
  {
    forall p | h.generate(p).Some?
      ensures h.matches(h.generate(p).value, p)
    {
      assert BcryptKey(Bytes(p)) == BcryptKey(Bytes(p));
    }
  }

  /** Bytes past the 72nd never reach the key. */
  lemma BcryptKeyTruncates(p: seq<byte>, q: seq<byte>)
    requires |p| >= 72
    ensures BcryptKey(p + q) == BcryptKey(p)
  {
    var b, b' := p + q + [0], p + [0];
    var k, k' := BcryptKey(p + q), BcryptKey(p);
    forall i | 0 <= i < 72
      ensures k[i] == k'[i]
    {
      ModBelow(i, |b|);
      ModBelow(i, |b'|);
      assert b[i] == p[i] == b'[i];
    }
  }

  /** A password of at most 71 bytes opens its key, followed by the NUL;
      without a NUL in it, that NUL is the key's first zero byte. */
  lemma BcryptKeyPrefix(p: seq<byte>)
    requires |p| <= 71
    ensures BcryptKey(p)[..|p| + 1] == p + [0]
    ensures 0 !in p ==> 0 !in BcryptKey(p)[..|p|]
  {
    var b := p + [0];
    var k := BcryptKey(p);
    forall i | 0 <= i < |b|
      ensures k[i] == b[i]
    {
      ModBelow(i, |b|);
    }
    assert k[..|b|] == b;
    assert k[..|p|] == p;
  }

  /** A remainder by a larger divisor is the dividend. */
  lemma ModBelow(i: nat, m: nat)
    requires i < m
    ensures i % m == i
  {
  }

  /** Up to 71 bytes without a NUL, the key determines the password. */
  lemma BcryptKeyInjective(p: seq<byte>, q: seq<byte>)
    requires |p| <= 71 && |q| <= 71 && 0 !in p && 0 !in q
    ensures BcryptKey(p) == BcryptKey(q) <==> p == q
  {
    BcryptKeyPrefix(p);
    BcryptKeyPrefix(q);
    var kp, kq := BcryptKey(p), BcryptKey(q);
    if kp == kq {
      // the first zero byte of the key sits right after the password
      assert kp[|p|] == 0 && kp[|q|] == 0;
      assert |p| <= |q| by { assert kp[|p|] !in kp[..|q|] || |p| >= |q|; }
      assert |q| <= |p| by { assert kp[|q|] !in kp[..|p|] || |q| >= |p|; }
      assert p == kp[..|p|] == q;
    }
  }

  /** A password of 72 bytes or more logs in with anything appended to it. */
  lemma LongPasswordIgnoresSuffix(password: string, extra: string)
    requires Utf8Len(password) >= 72
    ensures BcryptKey(Bytes(password + extra)) == BcryptKey(Bytes(password))
  {
    BytesAppend(password, extra);
    BcryptKeyTruncates(Bytes(password), Bytes(extra));
  }

  /** Two passwords of at most 71 bytes, neither holding a NUL, have the same
      key only when they are the same string. */
  lemma ShortPasswordsDistinguished(p: string, q: string)
    requires Utf8Len(p) <= 71 && Utf8Len(q) <= 71 && '\0' !in p && '\0' !in q
    ensures BcryptKey(Bytes(p)) == BcryptKey(Bytes(q)) <==> p == q
  {
    NulFreeBytes(p);
    NulFreeBytes(q);
    BcryptKeyInjective(Bytes(p), Bytes(q));
    if Bytes(p) == Bytes(q) {
      BytesInjective(p, q);
    }
  }

  /** The claims Login signs (handlers.go:166-170). */
  datatype IssuedClaims = IssuedClaims(email: string, role: string, exp: int)

  /** `token.SignedString`: the signed token, or `None` when signing fails. */
  type Signer = IssuedClaims -> Option<string>

  /** `time.Hour * 24` in seconds. */
  const TokenLifetime: int := 24 * 60 * 60

  /** The response of a handler whose role gate did not grant access: 401
      when it refused, 500 when it panicked. */
  function GateReply(g: GateResult): (r: Response)
    requires g != Granted
    ensures g == Denied ==> r.code == StatusUnauthorized && r.reason == RoleDenied
    ensures g == GatePanic ==> r.code == StatusInternalServerError
  {
    if g == Denied then Reply(RoleDenied) else Reply(Panicked)
  }

  /** SignUp's checks on the request alone (handlers.go:50-73), in order:
      the first that fails gives the reason. */
  function InputError(req: SignUpRequest): (r: Option<Reason>)
    ensures r.None? <==> && EmailValid(req.email) && req.username != ""
                         && req.role in {"user", "admin"} && PasswordLongEnough(req.password)
    ensures r.Some? ==> StatusOf(r.value) == StatusBadRequest
  {
    if !EmailValid(req.email) then Some(InvalidEmail)
    else if req.username == "" then Some(EmptyUsername)
    else if req.role != "user" && req.role != "admin" then Some(InvalidRole)
    else if Utf8Len(req.password) < 8 then Some(ShortPassword)
    else None
  }

  /** The order of all of SignUp's checks (handlers.go:50-130): the first one
      that fails decides the reason. */
  function SignUpVerdict(req: SignUpRequest, hash: Option<string>, emailTaken: bool,
                         phoneTaken: bool, insertOk: bool): (r: Reason)
    ensures r == HashFailed ==> hash.None?
    ensures r == InvalidPhone ==> !PhoneValid(req.phone)
    ensures r == EmailExists ==> emailTaken
    ensures r == PhoneExists ==> phoneTaken && !emailTaken
    ensures r == CreateFailed ==> !insertOk && !emailTaken && !phoneTaken
  {
    if InputError(req).Some? then InputError(req).value
    else if hash.None? then HashFailed
    else if !PhoneValid(req.phone) then InvalidPhone
    else if emailTaken then EmailExists
    else if phoneTaken then PhoneExists
    else if !insertOk then CreateFailed
    else Success
  }

  /** SignUp succeeds exactly when every check passes. */
  lemma SignUpSucceedsIff(req: SignUpRequest, hash: Option<string>, emailTaken: bool,
                          phoneTaken: bool, insertOk: bool)
    ensures SignUpVerdict(req, hash, emailTaken, phoneTaken, insertOk) == Success
        <==> && EmailValid(req.email) && req.username != "" && req.role in {"user", "admin"}
             && PasswordLongEnough(req.password) && hash.Some? && PhoneValid(req.phone)
             && !emailTaken && !phoneTaken && insertOk
  {
  }

  /** A short password is refused as soon as the email, username and role are
      valid, whatever the store holds and whatever bcrypt would do. */
  lemma ShortPasswordRefused(req: SignUpRequest, hash: Option<string>, emailTaken: bool,
                             phoneTaken: bool, insertOk: bool)
    requires EmailValid(req.email) && req.username != "" && req.role in {"user", "admin"}
    requires Utf8Len(req.password) < 8
    ensures SignUpVerdict(req, hash, emailTaken, phoneTaken, insertOk) == ShortPassword
  {
  }

  /** A duplicate email is refused with 500 once the input is valid, and a
      duplicate phone once the email is new. */
  lemma DuplicatesRefused(req: SignUpRequest, hash: Option<string>, phoneTaken: bool, insertOk: bool)
    requires EmailValid(req.email) && req.username != "" && req.role in {"user", "admin"}
    requires PasswordLongEnough(req.password) && hash.Some? && PhoneValid(req.phone)
    ensures SignUpVerdict(req, hash, true, phoneTaken, insertOk) == EmailExists
    ensures SignUpVerdict(req, hash, false, true, insertOk) == PhoneExists
    ensures StatusOf(EmailExists) == StatusOf(PhoneExists) == StatusInternalServerError
  {
  }

  /** The abstract database: the users table keyed by email, the career table
      by job id and the profile table by user id, with the next values of the
      two serial id columns. */
  class Store {
    var users: map<string, User>
    var nextUserId: int
    var careers: map<int, Career>
    var nextJobId: int
    var profiles: map<int, Profile>
    var nextProfileId: int

    /** Every row sits under its own key, serial ids are below the next one,
        and no two users share a phone string. The email and phone columns are
        taken to be unique: the schema the program creates is not part of this
        model, and SignUp's own lookups fail open. */
    ghost predicate Valid()
      reads this
    {
      && (forall e | e in users :: users[e].email == e && users[e].id < nextUserId)
      && (forall e1, e2 | e1 in users && e2 in users && e1 != e2 :: users[e1].phone != users[e2].phone)
      && (forall id | id in careers :: careers[id].jobid == id && id < nextJobId)
      && (forall id | id in profiles :: profiles[id].userid == id && id < nextProfileId)
    }

    constructor ()
      ensures Valid()
      ensures users == map[] && careers == map[] && profiles == map[]
      ensures nextUserId == 1 && nextJobId == 1 && nextProfileId == 1
    {
      users, careers, profiles := map[], map[], map[];
      nextUserId, nextJobId, nextProfileId := 1, 1, 1;
    }

    /** `GetUserByPhoneNumber` finds a row. */
    predicate PhoneTaken(phone: string)
      reads this
    {
      exists e | e in users :: users[e].phone == phone
    }

    /** `GetCareerByJobId` with its error ignored: the row, or the zero struct. */
    function StoredCareer(id: int): Career
      reads this
    {
      if id in careers then careers[id] else ZeroCareer
    }

    /** `GetProfileByuserId` with its error ignored. */
    function StoredProfile(id: int): Profile
      reads this
    {
      if id in profiles then profiles[id] else ZeroProfile
    }

    // -------------------------------------------------------------------
    // Users
    // -------------------------------------------------------------------

    /** POST /signup (handlers.go:39-133). `body` is `None` when BindJSON
        fails; `emailLookupOk` and `phoneLookupOk` are whether
        `GetUserByEmail` and `GetUserByPhoneNumber` return without a database
        error (any error reads as "not found"); `insertOk` is whether
        `CreateUser` succeeds. A duplicate that slips past a failed lookup is
        refused by the insert, under the uniqueness `Valid` assumes. */
    method SignUp(body: Option<SignUpRequest>, hasher: Hasher, emailLookupOk: bool, phoneLookupOk: bool,
                  insertOk: bool)
      returns (r: Response, created: Option<User>)
      requires Valid()
      modifies this
      ensures Valid()
      ensures careers == old(careers) && nextJobId == old(nextJobId)
      ensures profiles == old(profiles) && nextProfileId == old(nextProfileId)
      ensures body.None? ==> r == Reply(MalformedBody)
      ensures body.Some? ==>
        var req := body.value;
        var emailTaken := req.email in old(users);
        var phoneTaken := old(PhoneTaken(req.phone));
        r == Reply(SignUpVerdict(req, hasher.generate(req.password), emailLookupOk && emailTaken,
                                 phoneLookupOk && phoneTaken, insertOk && !emailTaken && !phoneTaken))
      ensures r.reason == Success ==>
        var req := body.value;
        var row := User(old(nextUserId), req.username, req.email, req.phone,
                        hasher.generate(req.password).value, req.role);
        && created == Some(row)
        && users == old(users)[req.email := row] && nextUserId == old(nextUserId) + 1
      ensures r.reason != Success ==> created.None? && users == old(users) && nextUserId == old(nextUserId)
    {
      created := None;
      if body.None? {
        return Reply(MalformedBody), None;
      }
      var req := body.value;
      var inputError := InputError(req);
      if inputError.Some? {
        return Reply(inputError.value), None;
      }
      var hashed := hasher.generate(req.password);
      if hashed.None? {
        return Reply(HashFailed), None;
      }
      // users.Password = string(password): from here on only the hash is kept
      req := req.(password := hashed.value);
      var phoneNumber := TrimSpace(req.phone);
      if !(|phoneNumber| == 10 && AllDigits(phoneNumber)) {
        return Reply(InvalidPhone), None;
      }
      var emailTaken := req.email in users;
      if emailLookupOk && emailTaken {
        return Reply(EmailExists), None;
      }
      // the lookup uses the untrimmed phone
      var phoneTaken := PhoneTaken(req.phone);
      if phoneLookupOk && phoneTaken {
        return Reply(PhoneExists), None;
      }
      if !insertOk || emailTaken || phoneTaken {
        return Reply(CreateFailed), None;
      }
      assert forall e | e in users :: users[e].phone != req.phone;
      var row := User(nextUserId, req.username, req.email, req.phone, req.password, req.role);
      users := users[req.email := row];
      nextUserId := nextUserId + 1;
      r, created := Reply(Success), Some(row);
    }

    /** POST /login (handlers.go:135-188), at Unix time `now`. `lookupOk` is
        whether `GetUserByEmail` returns without a database error; any error
        is answered as an unknown email. On success the user's row (with its
        hash) is returned besides the token. */
    method Login(body: Option<SignUpRequest>, hasher: Hasher, sign: Signer, now: int, lookupOk: bool)
      returns (r: Response, claims: Option<IssuedClaims>, token: Option<string>, userData: Option<User>)
      ensures body.None? ==> r == Reply(MalformedBody)
      ensures body.Some? && (!lookupOk || body.value.email !in users) ==> r == Reply(UnknownEmail)
      ensures body.Some? && lookupOk && body.value.email in users
              && !hasher.matches(users[body.value.email].password, body.value.password)
              ==> r == Reply(PasswordMismatch)
      ensures body.Some? && lookupOk && body.value.email in users
              && hasher.matches(users[body.value.email].password, body.value.password) ==>
        var issued := IssuedClaims(body.value.email, users[body.value.email].role, now + TokenLifetime);
        && (sign(issued).None? ==> r == Reply(TokenFailed))
        && (sign(issued).Some? ==> r == Reply(Success) && claims == Some(issued) && token == sign(issued)
                                   && userData == Some(users[body.value.email]))
      ensures r.reason != Success ==> claims.None? && token.None? && userData.None?
    {
      claims, token, userData := None, None, None;
      if body.None? {
        return Reply(MalformedBody), None, None, None;
      }
      var req := body.value;
      if !lookupOk || req.email !in users {
        return Reply(UnknownEmail), None, None, None;
      }
      var row := users[req.email];
      if !hasher.matches(row.password, req.password) {
        return Reply(PasswordMismatch), None, None, None;
      }
      var issued := IssuedClaims(req.email, row.role, now + TokenLifetime);
      var signed := sign(issued);
      if signed.None? {
        return Reply(TokenFailed), None, None, None;
      }
      r, claims, token, userData := Reply(Success), Some(issued), signed, Some(row);
    }

    /** A successful SignUp followed by a Login with `attempt`, every lookup
        and insert succeeding. The stored hash always accepts the same
        plaintext; with bcrypt's key derivation it accepts exactly the
        attempts whose key equals the password's, which for passwords and
        attempts of at most 71 bytes without a NUL means the same string
        (ShortPasswordsDistinguished), and for a password of 72 bytes or more
        includes every extension of it (LongPasswordIgnoresSuffix). */
    method SignUpThenLogin(req: SignUpRequest, hasher: Hasher, sign: Signer, now: int, attempt: string)
      returns (signup: Response, login: Response)
      requires Valid() && MatchesOwnPlaintext(hasher)
      modifies this
      ensures Valid()
      ensures signup.reason == Success ==>
        && login.reason in {Success, TokenFailed, PasswordMismatch}
        && (attempt == req.password ==> login.reason != PasswordMismatch)
        && (BcryptHasher(hasher) ==>
              (login.reason == PasswordMismatch <==> BcryptKey(Bytes(attempt)) != BcryptKey(Bytes(req.password))))
    {
      var created;
      signup, created := SignUp(Some(req), hasher, true, true, true);
      var attemptBody := req.(password := attempt);
      var claims, token, userData;
      login, claims, token, userData := Login(Some(attemptBody), hasher, sign, now, true);
    }

    /** GET /get-all-users-email (handlers.go:190-211), admins only. */
    method GetAllUsersEmail(ctx: RequestContext, dbOk: bool) returns (r: Response, emails: set<string>)
      ensures var g := AdminAuth(ctx.Get("role"));
        && (g != Granted ==> r == GateReply(g) && emails == {})
        && (g == Granted && !dbOk ==> r == Reply(QueryFailed) && emails == {})
        && (g == Granted && dbOk ==> r == Reply(Success) && emails == users.Keys)
    {
      var g := AdminAuth(ctx.Get("role"));
      if g != Granted {
        return GateReply(g), {};
      }
      if !dbOk {
        return Reply(QueryFailed), {};
      }
      r, emails := Reply(Success), users.Keys;
    }

    // -------------------------------------------------------------------
    // Careers
    // -------------------------------------------------------------------

    /** POST /createcareer (handlers.go:213-297), admins only. `insertOk` is
        whether the insert succeeds, `webhookOk` whether the webhook POST
        goes through; `posted` is the record sent to the webhook. */
    method CreateCareer(ctx: RequestContext, body: Option<CareerInput>, insertOk: bool, webhookOk: bool)
      returns (r: Response, posted: Option<CareerInput>)
      requires Valid()
      modifies this
      ensures Valid()
      ensures users == old(users) && nextUserId == old(nextUserId)
      ensures profiles == old(profiles) && nextProfileId == old(nextProfileId)
      ensures var g := AdminAuth(ctx.Get("role"));
        && (g != Granted ==> r == GateReply(g))
        && (g == Granted && body.None? ==> r == Reply(MalformedBody))
        && (g == Granted && body.Some? && !CareerComplete(body.value) ==>
              r.code == StatusBadRequest && r.reason.MissingFields?
              && ListsCareerMissing(body.value, r.reason.fields))
        && ((g == Granted && body.Some? && CareerComplete(body.value)
              && body.value.startdate > body.value.enddate) ==> r == Reply(InvalidDateRange))
        && ((g == Granted && body.Some? && CareerComplete(body.value)
              && body.value.startdate <= body.value.enddate) ==>
              r == Reply(if !insertOk then CreateFailed else if !webhookOk then WebhookFailed else Success))
      ensures posted.Some? <==> careers != old(careers)
      ensures posted.Some? ==>
        && posted == body && r.reason in {Success, WebhookFailed}
        && careers == old(careers)[old(nextJobId) := WithJobId(body.value, old(nextJobId))]
        && nextJobId == old(nextJobId) + 1
      ensures posted.None? ==> careers == old(careers) && nextJobId == old(nextJobId)
    {
      posted := None;
      var g := AdminAuth(ctx.Get("role"));
      if g != Granted {
        return GateReply(g), None;
      }
      if body.None? {
        return Reply(MalformedBody), None;
      }
      var career := body.value;
      var missing := CollectCareerMissing(career);
      CareerMissingEmptyIff(career, missing);
      if |missing| > 0 {
        return Reply(MissingFields(missing)), None;
      }
      if career.startdate > career.enddate {
        return Reply(InvalidDateRange), None;
      }
      if !insertOk {
        return Reply(CreateFailed), None;
      }
      assert nextJobId !in careers;
      careers := careers[nextJobId := WithJobId(career, nextJobId)];
      nextJobId := nextJobId + 1;
      // the row is stored whether or not the notification goes through
      posted := Some(career);
      if !webhookOk {
        return Reply(WebhookFailed), posted;
      }
      r := Reply(Success);
    }

    /** GET /getcareerdetail/:id (handlers.go:299-324), either role. */
    method GetCareerByJobId(ctx: RequestContext, idParam: string, dbOk: bool)
      returns (r: Response, found: Option<Career>)
      ensures var g := CommonAuth(ctx.Get("role"));
        && (g != Granted ==> r == GateReply(g))
        && (g == Granted && Atoi(idParam).None? ==> r == Reply(BadId))
        && (g == Granted && Atoi(idParam).Some? ==>
              var id := Atoi(idParam).value;
              if id in careers && dbOk then r == Reply(Success) && found == Some(careers[id])
              else r == Reply(QueryFailed))
      ensures r.reason != Success ==> found.None?
    {
      found := None;
      var g := CommonAuth(ctx.Get("role"));
      if g != Granted {
        return GateReply(g), None;
      }
      var jobId := Atoi(idParam);
      if jobId.None? {
        return Reply(BadId), None;
      }
      if jobId.value !in careers || !dbOk {
        return Reply(QueryFailed), None;
      }
      r, found := Reply(Success), Some(careers[jobId.value]);
    }

    /** GET /get-all-career-details (handlers.go:326-346), either role. */
    method GetAllCareers(ctx: RequestContext, dbOk: bool) returns (r: Response, rows: set<Career>)
      ensures var g := CommonAuth(ctx.Get("role"));
        && (g != Granted ==> r == GateReply(g) && rows == {})
        && (g == Granted && !dbOk ==> r == Reply(QueryFailed) && rows == {})
        && (g == Granted && dbOk ==> r == Reply(Success) && rows == careers.Values)
    {
      var g := CommonAuth(ctx.Get("role"));
      if g != Granted {
        return GateReply(g), {};
      }
      if !dbOk {
        return Reply(QueryFailed), {};
      }
      r, rows := Reply(Success), careers.Values;
    }

    /** PUT /updatecareer/:id (handlers.go:348-401), admins only. The body is
        bound before the id is parsed. `lookupOk` is whether the lookup of
        the stored row succeeds: its error is ignored, and a failed lookup
        leaves the zero struct to merge with. The update then finds no row
        (or fails when `dbOk` is false) and answers 400. */
    method UpdateCareerById(ctx: RequestContext, body: Option<Career>, idParam: string,
                            lookupOk: bool, dbOk: bool)
      returns (r: Response, updated: Option<Career>)
      requires Valid()
      modifies this
      ensures Valid()
      ensures users == old(users) && nextUserId == old(nextUserId) && nextJobId == old(nextJobId)
      ensures profiles == old(profiles) && nextProfileId == old(nextProfileId)
      ensures var g := AdminAuth(ctx.Get("role"));
        && (g != Granted ==> r == GateReply(g))
        && (g == Granted && body.None? ==> r == Reply(MalformedBody))
        && (g == Granted && body.Some? && Atoi(idParam).None? ==> r == Reply(BadId))
        && (g == Granted && body.Some? && Atoi(idParam).Some? ==>
              var id := Atoi(idParam).value;
              if id in old(careers) && dbOk then
                var merged := MergeCareer(body.value, if lookupOk then old(careers)[id] else ZeroCareer, id);
                r == Reply(Success) && updated == Some(merged) && careers == old(careers)[id := merged]
              else r == Reply(QueryFailed))
      ensures r.reason != Success ==> updated.None? && careers == old(careers)
    {
      updated := None;
      var g := AdminAuth(ctx.Get("role"));
      if g != Granted {
        return GateReply(g), None;
      }
      if body.None? {
        return Reply(MalformedBody), None;
      }
      var career := body.value;
      var jobId := Atoi(idParam);
      if jobId.None? {
        return Reply(BadId), None;
      }
      career := career.(jobid := jobId.value);
      var existing := if lookupOk then StoredCareer(career.jobid) else ZeroCareer;
      if career.company == "" {
        career := career.(company := existing.company);
      }
      if career.position == "" {
        career := career.(position := existing.position);
      }
      if career.jobtype == "" {
        career := career.(jobtype := existing.jobtype);
      }
      if career.description == "" {
        career := career.(description := existing.description);
      }
      if career.jobid !in careers || !dbOk {
        return Reply(QueryFailed), None;
      }
      careers := careers[career.jobid := career];
      r, updated := Reply(Success), Some(career);
    }

    /** The same PUT /updatecareer/:id sent twice, every lookup and write
        succeeding: the second answers like the first and leaves the table as
        the first left it. */
    method RepeatedCareerUpdate(ctx: RequestContext, body: Option<Career>, idParam: string)
      returns (first: Response, second: Response)
      requires Valid()
      modifies this
      ensures Valid()
      ensures second == first
      ensures first.reason == Success ==>
        && body.Some? && Atoi(idParam).Some? && Atoi(idParam).value in old(careers)
        && var id := Atoi(idParam).value;
           careers == old(careers)[id := MergeCareer(body.value, old(careers)[id], id)]
    {
      var u1, u2;
      first, u1 := UpdateCareerById(ctx, body, idParam, true, true);
      if first.reason == Success {
        MergeCareerIdempotent(body.value, old(careers)[Atoi(idParam).value], Atoi(idParam).value);
      }
      second, u2 := UpdateCareerById(ctx, body, idParam, true, true);
    }

    /** DELETE /deletecareer/:id (handlers.go:403-430), admins only. */
    method DeleteCareerById(ctx: RequestContext, idParam: string, dbOk: bool)
      returns (r: Response, deleted: Option<Career>)
      requires Valid()
      modifies this
      ensures Valid()
      ensures users == old(users) && nextUserId == old(nextUserId) && nextJobId == old(nextJobId)
      ensures profiles == old(profiles) && nextProfileId == old(nextProfileId)
      ensures var g := AdminAuth(ctx.Get("role"));
        && (g != Granted ==> r == GateReply(g))
        && (g == Granted && Atoi(idParam).None? ==> r == Reply(BadId))
        && (g == Granted && Atoi(idParam).Some? ==>
              var id := Atoi(idParam).value;
              if id in old(careers) && dbOk then
                r == Reply(Success) && deleted == Some(old(careers)[id]) && careers == old(careers) - {id}
              else r == Reply(QueryFailed))
      ensures r.reason != Success ==> deleted.None? && careers == old(careers)
    {
      deleted := None;
      var g := AdminAuth(ctx.Get("role"));
      if g != Granted {
        return GateReply(g), None;
      }
      var jobId := Atoi(idParam);
      if jobId.None? {
        return Reply(BadId), None;
      }
      if jobId.value !in careers || !dbOk {
        return Reply(QueryFailed), None;
      }
      deleted := Some(careers[jobId.value]);
      careers := careers - {jobId.value};
      r := Reply(Success);
    }

    // -------------------------------------------------------------------
    // Profiles
    // -------------------------------------------------------------------

    /** POST /createprofile (handlers.go:432-488), users only. The table
        assigns the profile's id from its own serial column. */
    method CreateProfile(ctx: RequestContext, body: Option<ProfileInput>, insertOk: bool)
      returns (r: Response, data: Option<ProfileInput>)
      requires Valid()
      modifies this
      ensures Valid()
      ensures users == old(users) && nextUserId == old(nextUserId)
      ensures careers == old(careers) && nextJobId == old(nextJobId)
      ensures var g := UserAuth(ctx.Get("role"));
        && (g != Granted ==> r == GateReply(g))
        && (g == Granted && body.None? ==> r == Reply(MalformedBody))
        && (g == Granted && body.Some? && !ProfileComplete(body.value) ==>
              r.code == StatusBadRequest && r.reason.MissingFields?
              && ListsProfileMissing(body.value, r.reason.fields))
        && (g == Granted && body.Some? && ProfileComplete(body.value) ==>
              r == Reply(if insertOk then Success else CreateFailed))
      ensures r.reason == Success ==>
        && data == body
        && profiles == old(profiles)[old(nextProfileId) := WithUserId(body.value, old(nextProfileId))]
        && nextProfileId == old(nextProfileId) + 1
      ensures r.reason != Success ==>
        data.None? && profiles == old(profiles) && nextProfileId == old(nextProfileId)
    {
      data := None;
      var g := UserAuth(ctx.Get("role"));
      if g != Granted {
        return GateReply(g), None;
      }
      if body.None? {
        return Reply(MalformedBody), None;
      }
      var profile := body.value;
      var missing := CollectProfileMissing(profile);
      ProfileMissingEmptyIff(profile, missing);
      if |missing| > 0 {
        return Reply(MissingFields(missing)), None;
      }
      if !insertOk {
        return Reply(CreateFailed), None;
      }
      profiles := profiles[nextProfileId := WithUserId(profile, nextProfileId)];
      nextProfileId := nextProfileId + 1;
      // the response echoes the payload, without the id the table assigned
      r, data := Reply(Success), Some(profile);
    }

    /** GET /getprofile/:id (handlers.go:490-516), either role. */
    method GetProfileById(ctx: RequestContext, idParam: string, dbOk: bool)
      returns (r: Response, found: Option<Profile>)
      ensures var g := CommonAuth(ctx.Get("role"));
        && (g != Granted ==> r == GateReply(g))
        && (g == Granted && Atoi(idParam).None? ==> r == Reply(BadId))
        && (g == Granted && Atoi(idParam).Some? ==>
              var id := Atoi(idParam).value;
              if id in profiles && dbOk then r == Reply(Success) && found == Some(profiles[id])
              else r == Reply(QueryFailed))
      ensures r.reason != Success ==> found.None?
    {
      found := None;
      var g := CommonAuth(ctx.Get("role"));
      if g != Granted {
        return GateReply(g), None;
      }
      var profileId := Atoi(idParam);
      if profileId.None? {
        return Reply(BadId), None;
      }
      if profileId.value !in profiles || !dbOk {
        return Reply(QueryFailed), None;
      }
      r, found := Reply(Success), Some(profiles[profileId.value]);
    }

    /** GET /get-all-profile-details (handlers.go:518-538), either role. */
    method GetAllProfiles(ctx: RequestContext, dbOk: bool) returns (r: Response, rows: set<Profile>)
      ensures var g := CommonAuth(ctx.Get("role"));
        && (g != Granted ==> r == GateReply(g) && rows == {})
        && (g == Granted && !dbOk ==> r == Reply(QueryFailed) && rows == {})
        && (g == Granted && dbOk ==> r == Reply(Success) && rows == profiles.Values)
    {
      var g := CommonAuth(ctx.Get("role"));
      if g != Granted {
        return GateReply(g), {};
      }
      if !dbOk {
        return Reply(QueryFailed), {};
      }
      r, rows := Reply(Success), profiles.Values;
    }

    /** DELETE /delete-profile/:id (handlers.go:540-566), users only, and any
        user may delete any profile. */
    method DeleteProfileById(ctx: RequestContext, idParam: string, dbOk: bool)
      returns (r: Response, deleted: Option<Profile>)
      requires Valid()
      modifies this
      ensures Valid()
      ensures users == old(users) && nextUserId == old(nextUserId)
      ensures careers == old(careers) && nextJobId == old(nextJobId) && nextProfileId == old(nextProfileId)
      ensures var g := UserAuth(ctx.Get("role"));
        && (g != Granted ==> r == GateReply(g))
        && (g == Granted && Atoi(idParam).None? ==> r == Reply(BadId))
        && (g == Granted && Atoi(idParam).Some? ==>
              var id := Atoi(idParam).value;
              if id in old(profiles) && dbOk then
                r == Reply(Success) && deleted == Some(old(profiles)[id]) && profiles == old(profiles) - {id}
              else r == Reply(QueryFailed))
      ensures r.reason != Success ==> deleted.None? && profiles == old(profiles)
    {
      deleted := None;
      var g := UserAuth(ctx.Get("role"));
      if g != Granted {
        return GateReply(g), None;
      }
      var userId := Atoi(idParam);
      if userId.None? {
        return Reply(BadId), None;
      }
      if userId.value !in profiles || !dbOk {
        return Reply(QueryFailed), None;
      }
      deleted := Some(profiles[userId.value]);
      profiles := profiles - {userId.value};
      r := Reply(Success);
    }

    /** PUT /update-profile/:id (handlers.go:568-620), users only, any
        profile; `lookupOk` as for UpdateCareerById. */
    method UpdateProfileById(ctx: RequestContext, body: Option<Profile>, idParam: string,
                             lookupOk: bool, dbOk: bool)
      returns (r: Response, updated: Option<Profile>)
      requires Valid()
      modifies this
      ensures Valid()
      ensures users == old(users) && nextUserId == old(nextUserId)
      ensures careers == old(careers) && nextJobId == old(nextJobId) && nextProfileId == old(nextProfileId)
      ensures var g := UserAuth(ctx.Get("role"));
        && (g != Granted ==> r == GateReply(g))
        && (g == Granted && body.None? ==> r == Reply(MalformedBody))
        && (g == Granted && body.Some? && Atoi(idParam).None? ==> r == Reply(BadId))
        && (g == Granted && body.Some? && Atoi(idParam).Some? ==>
              var id := Atoi(idParam).value;
              if id in old(profiles) && dbOk then
                var merged := MergeProfile(body.value, if lookupOk then old(profiles)[id] else ZeroProfile, id);
                r == Reply(Success) && updated == Some(merged) && profiles == old(profiles)[id := merged]
              else r == Reply(QueryFailed))
      ensures r.reason != Success ==> updated.None? && profiles == old(profiles)
    {
      updated := None;
      var g := UserAuth(ctx.Get("role"));
      if g != Granted {
        return GateReply(g), None;
      }
      if body.None? {
        return Reply(MalformedBody), None;
      }
      var profile := body.value;
      var userId := Atoi(idParam);
      if userId.None? {
        return Reply(BadId), None;
      }
      profile := profile.(userid := userId.value);
      var existing := if lookupOk then StoredProfile(profile.userid) else ZeroProfile;
      if profile.fullname == "" {
        profile := profile.(fullname := existing.fullname);
      }
      if profile.address == "" {
        profile := profile.(address := existing.address);
      }
      if profile.gender == "" {
        profile := profile.(gender := existing.gender);
      }
      if profile.age == 0 {
        profile := profile.(age := existing.age);
      }
      if profile.userid !in profiles || !dbOk {
        return Reply(QueryFailed), None;
      }
      profiles := profiles[profile.userid := profile];
      r, updated := Reply(Success), Some(profile);
    }

    /** The same PUT /update-profile/:id sent twice: the second changes
        nothing. */
    method RepeatedProfileUpdate(ctx: RequestContext, body: Option<Profile>, idParam: string)
      returns (first: Response, second: Response)
      requires Valid()
      modifies this
      ensures Valid()
      ensures second == first
      ensures first.reason == Success ==>
        && body.Some? && Atoi(idParam).Some? && Atoi(idParam).value in old(profiles)
        && var id := Atoi(idParam).value;
           profiles == old(profiles)[id := MergeProfile(body.value, old(profiles)[id], id)]
    {
      var u1, u2;
      first, u1 := UpdateProfileById(ctx, body, idParam, true, true);
      if first.reason == Success {
        MergeProfileIdempotent(body.value, old(profiles)[Atoi(idParam).value], Atoi(idParam).value);
      }
      second, u2 := UpdateProfileById(ctx, body, idParam, true, true);
    }
  }
}
