# A model of the request-decision layer of a Go career/profile web service

The service is a small CRUD API built with Gin. It has sign-up and log-in
with bcrypt and JWT, career posts (admin only), profiles (user only) and
read access for both roles. This project models its decision layer in
Dafny and proves properties of it:

- **the handlers** (`handlers.dfy`, module `Handlers`). Each HTTP handler of
  `handlers/handlers.go` is a method of the class `Store`. `Store` holds the
  three tables as maps: users keyed by email, careers by job id, profiles by
  user id. Each method is the handler's chain of early returns, in the
  source's order. A handler ends in a `Response`, a pair of status code and
  `Reason`; each distinct exit of the source has its own `Reason`. Each
  method's contract states which check decides the response and how each
  table changes: only on success, except that CreateCareer keeps the row
  it inserted when the webhook afterwards fails. It also states that the
  store invariant `Valid` is kept. The password round trip through bcrypt
  is stated twice: that a hash accepts its own plaintext, and, for bcrypt's
  key derivation (the first 72 bytes of the password), exactly which
  attempts it accepts.
- **the input rules** (`validation.dfy`, module `Validation`):
  - SignUp's email regular expression, as a decision procedure proved equal
    to the language of the expression;
  - the phone rule, ten digits after `strings.TrimSpace`;
  - the password length, in bytes;
  - the ordered `missingFields` lists of CreateCareer and CreateProfile;
  - the partial-update merges of the two update handlers.
- **Go's text functions** (`gotext.dfy`, module `GoText`) where their exact
  behaviour decides what is accepted: `strings.TrimSpace`, `len` on a
  string and the `[]byte` conversion (UTF-8 bytes), and `strconv.Atoi`
  (optional sign, digits, `int64` range).
- **the authentication package** (`authentication.dfy`, module
  `Authentication`):
  - the three role gates, as functions of the optional context value;
  - the Authorization-header strip loop, as a method with loop invariants
    proved equal to a closed form;
  - the middleware, as a method over a `RequestContext` object whose map it
    updates.
- **shared values** (`common.dfy`, `records.dfy`): `Option`, bytes, the
  dynamically typed context and claim values, status codes, and the table
  rows and request payloads.

Five behaviours of the source are easy to misread:

- A duplicate email or phone gets 500, not a conflict status.
- A failed role gate gets 401, not 403.
- The strip loop does not remove "the first space-separated word". It
  ranges over the original header but slices the already shortened token,
  so with two or more spaces it removes more than the scheme, or slices
  past the end and panics. `Authentication.StripSpec` gives the exact
  result and `Authentication.TwoSpaces` spells it out.
- The gates use the unchecked assertion `role.(string)`. A token without a
  `role` claim stores `nil` in the context, and the gate then panics. Gin's
  recovery middleware answers a panic with 500, modelled as `Panicked`.
- The phone duplicate lookup and the insert use the untrimmed phone. So
  `"1234567890"` and `" 1234567890"` can both be stored
  (`Validation.PaddedPhoneIsAnotherPhone`).

## Model

| member | source | states |
|---|---|---|
| Common.StatusOf | handlers/handlers.go:104-128 | every reason maps to one of 200/400/401/500; only success is 200; duplicates, hashing, insert and signing failures are 500; exactly the login, gate and middleware refusals are 401 |
| GoText.TrimLeftTrims | handlers/handlers.go:94 | trimming the left end leaves a suffix, removes only white space, and leaves no white space at the start |
| GoText.TrimRightTrims | handlers/handlers.go:94 | trimming the right end leaves a prefix, removes only white space, and leaves no white space at the end |
| GoText.TrimSpaceTrims | handlers/handlers.go:94 | `strings.TrimSpace` leaves a middle part between two runs of white space that neither starts nor ends with white space |
| GoText.TrimSpaceUnique | handlers/handlers.go:94 | any such middle part is exactly what `strings.TrimSpace` returns |
| GoText.RuneLen | handlers/handlers.go:74 | a character takes 1 to 4 bytes in UTF-8 |
| GoText.TrimSpace | handlers/handlers.go:94 | trimming never lengthens a string, and leaves one that neither starts nor ends with white space unchanged |
| GoText.Utf8Len | handlers/handlers.go:74 | a string's byte length lies between its character count and four times it |
| GoText.Utf8LenBounds | handlers/handlers.go:74 | an all-ASCII string has as many bytes as characters |
| GoText.RuneBytes | handlers/handlers.go:83 | a character's UTF-8 encoding has the byte length `len` counts for it |
| GoText.Bytes | handlers/handlers.go:83 | `[]byte(s)` has `len(s)` bytes |
| GoText.RuneBytesDecode | handlers/handlers.go:83 | decoding a character's encoding gives it back, and its first byte gives the encoding's length |
| GoText.BytesAppend | handlers/handlers.go:83 | the encoding of a concatenation is the concatenation of the encodings |
| GoText.BytesInjective | handlers/handlers.go:83 | two strings with the same bytes are the same string |
| GoText.NulFreeBytes | handlers/handlers.go:83 | a string without the character NUL has no zero byte |
| GoText.Atoi | handlers/handlers.go:305 | a parsed path id lies in the `int64` range, and the text is an optional sign followed by at least one digit |
| GoText.AtoiDigits | handlers/handlers.go:305 | digits, leading zeros included, parse to their decimal value exactly when it fits in an `int64` |
| GoText.AtoiPlus | handlers/handlers.go:305 | a leading '+' does not change the result |
| GoText.AtoiMinus | handlers/handlers.go:305 | a leading '-' gives the negated value exactly when it fits in an `int64` |
| GoText.AtoiRoundTrip | handlers/handlers.go:305 | every `int64` written in decimal parses back to itself |
| Validation.FirstIndexFirst | handlers/handlers.go:50-51 | the split point is the first '@': none occurs before it, and none is found only when there is none |
| Validation.LastIndexLast | handlers/handlers.go:50-51 | the split point is the last '.': none occurs after it, and none is found only when there is none |
| Validation.EmailValid | handlers/handlers.go:50-51 | an accepted address has at least six characters, an '@' but not at the start, and ends in a lower-case letter |
| Validation.EmailValidIff | handlers/handlers.go:50-51 | the email check accepts exactly local part '@' domain '.' 2-4 lower-case letters, over the expression's character classes |
| Validation.EmailCharacters | handlers/handlers.go:50-51 | every character of an accepted address is '@' or in the local-part class |
| Validation.EmailRejectsUppercase | handlers/handlers.go:50-51 | an address with an upper-case letter is refused |
| Validation.AliceEmailAccepted | handlers/handlers.go:50-51 | `alice@x.com` is accepted |
| Validation.PhoneValid | handlers/handlers.go:94-96 | an accepted phone has at least ten characters, and ten bare digits are accepted |
| Validation.PhoneValidWhenPadded | handlers/handlers.go:94-96 | ten digits with only white space around them are accepted |
| Validation.PaddedWhenPhoneValid | handlers/handlers.go:94-96 | an accepted phone is ten digits with only white space around them |
| Validation.PhoneValidIff | handlers/handlers.go:94-96 | both directions: accepted exactly when ten digits are padded with white space |
| Validation.LeadingSpaceAccepted | handlers/handlers.go:94-96 | ten digits after a space are accepted |
| Validation.PaddedPhoneIsAnotherPhone | handlers/handlers.go:94-122 | a phone and the same phone after a space are both accepted and are different strings, so the untrimmed duplicate lookup tells them apart |
| Validation.PasswordLongEnough | handlers/handlers.go:74-80 | eight characters always pass, and one character never does |
| Validation.PasswordBoundary | handlers/handlers.go:74-80 | for ASCII a password passes exactly when it has at least eight characters (eight is accepted) |
| Validation.FourAccentedLettersAccepted | handlers/handlers.go:74-80 | four two-byte characters pass the length check, because `len` counts bytes |
| Validation.AppendCareerMissing | handlers/handlers.go:232-250 | the six appends build the empty fields of Company, Position, Jobtype, Description, Startdate, Enddate, taken in that order |
| Validation.CareerMissingAmongMembers | handlers/handlers.go:232-250 | a field is listed exactly when it is one of those examined and is empty |
| Validation.CareerMissingAmongOrdered | handlers/handlers.go:232-250 | fields examined in order are listed in order |
| Validation.CareerMissingCorrect | handlers/handlers.go:232-250 | the built list holds exactly the empty career fields, in the handler's order, none twice |
| Validation.CollectCareerMissing | handlers/handlers.go:232-250 | the list CreateCareer reports holds exactly the empty fields among Company, Position, Jobtype, Description, Startdate and Enddate, in that order |
| Validation.AppendProfileMissing | handlers/handlers.go:449-461 | the four appends build the empty fields of Fullname, Address, Gender, Age (0), taken in that order |
| Validation.ProfileMissingAmongMembers | handlers/handlers.go:449-461 | a field is listed exactly when it is one of those examined and is empty |
| Validation.ProfileMissingAmongOrdered | handlers/handlers.go:449-461 | fields examined in order are listed in order |
| Validation.ProfileMissingCorrect | handlers/handlers.go:449-461 | the built list holds exactly the empty profile fields, in the handler's order |
| Validation.CollectProfileMissing | handlers/handlers.go:449-461 | the list CreateProfile reports holds exactly the empty fields among Fullname, Address, Gender and Age (0), in that order |
| Validation.AppendInRankOrder | handlers/handlers.go:232-250 | appending a field later in the order than every listed one keeps the list ordered |
| Validation.CareerMissingEmptyIff | handlers/handlers.go:232-252 | the list is empty exactly when the career payload is complete |
| Validation.ProfileMissingEmptyIff | handlers/handlers.go:449-463 | the list is empty exactly when the profile payload is complete |
| Validation.RankOrderedUnique | handlers/handlers.go:232-250 | two ordered lists with the same members are equal, so the missing list is fully determined by the payload |
| Validation.MergeCareer | handlers/handlers.go:371-386 | the id comes from the path and the dates from the payload; each text field comes from the payload when it is set there and from the stored row when it is empty |
| Validation.MergeCareerIdempotent | handlers/handlers.go:371-386 | the same payload merged again against the row the first update wrote gives that row; the written row sent against the same stored row writes itself |
| Validation.MergeCareerExtremes | handlers/handlers.go:371-386 | a payload with all four text fields set replaces the row; an empty one keeps the stored text; dates always come from the payload and the id from the path |
| Validation.MergeWithZeroCareer | handlers/handlers.go:373-386 | when the ignored lookup failed, the payload is written as it is, with empty fields blanked |
| Validation.MergeProfile | handlers/handlers.go:589-605 | the user id comes from the path; each field comes from the payload when it is set there (age other than 0) and from the stored profile otherwise |
| Validation.MergeProfileIdempotent | handlers/handlers.go:589-605 | the same profile payload merged again against the profile the first update wrote gives that profile; the written profile sent against the same stored one writes itself |
| Validation.MergeProfileExtremes | handlers/handlers.go:589-605 | a full payload replaces the profile; an empty one (age 0) keeps all stored fields; the id comes from the path |
| Validation.MergeWithZeroProfile | handlers/handlers.go:590-605 | when the ignored lookup failed, the profile payload is written as it is |
| Authentication.AdminAuth | authentication/authentication.go:50-56 | passes exactly when a role is present and is the string "admin"; panics exactly when the value is present but not a string |
| Authentication.UserAuth | authentication/authentication.go:59-65 | passes exactly when a role is present and is the string "user"; panics on a non-string value |
| Authentication.CommonAuth | authentication/authentication.go:68-74 | passes exactly for "user" or "admin"; panics on a non-string value |
| Authentication.GatesExclusive | authentication/authentication.go:50-65 | no role passes both the admin and the user gate |
| Authentication.CommonIsUnion | authentication/authentication.go:50-74 | the common gate passes exactly when the admin or the user gate does, and all three panic on the same values |
| Authentication.AbsentRoleDenied | authentication/authentication.go:50-74 | without a role every gate refuses, and none panics |
| Authentication.StripSpec | authentication/authentication.go:21-25 | the token left is a suffix of the header; a header ending in a space leaves an empty token or panics |
| Authentication.SpaceDropMonotone | authentication/authentication.go:21-25 | the loop never drops fewer bytes after a longer prefix of the header |
| Authentication.StripScheme | authentication/authentication.go:21-25 | the loop's result is the closed form: the header without its total drop, or a panic exactly when that drop exceeds the header's length |
| Authentication.SpaceDropNoSpaceSuffix | authentication/authentication.go:21-25 | bytes that are not spaces add nothing to the drop |
| Authentication.NoSpaceKeepsHeader | authentication/authentication.go:21-25 | a header without a space is the token unchanged |
| Authentication.OneSpace | authentication/authentication.go:21-25 | with exactly one space the token is what follows it |
| Authentication.TwoSpaces | authentication/authentication.go:21-25 | with two spaces the second slice uses the original index: the token loses a further `|a|+1` bytes, or the request panics |
| Authentication.BearerWithTwoWordsPanics | authentication/authentication.go:21-25 | the header "Bearer x y" makes the loop slice past the end |
| Authentication.RequestContext.Set | authentication/authentication.go:44-45 | after setting a key, `Get` finds the new value under it, and every other key reads as before |
| Authentication.Expired | authentication/authentication.go:37-38 | a token counts as expired only when it has an `exp` claim of Go type `int64` |
| Authentication.AuthMiddleware | authentication/authentication.go:13-47 | empty header, slicing panic, invalid token and an expired `int64` `exp` each abort with their response and leave the context untouched; otherwise `email` and `role` are set from the claims (`nil` when absent), and a later `Get` of either finds that claim |
| Authentication.RoleClaimNotStringPanics | authentication/authentication.go:44-74 | a token without a `role` claim, or with one that is not a string, makes every gate after the middleware panic |
| Authentication.RoleClaimDecidesGates | authentication/authentication.go:44-74 | a string `role` claim passes the admin gate exactly when it is "admin", the user gate exactly when it is "user", and the common gate for either |
| Handlers.GateReply | handlers/handlers.go:191-195 | a refused gate answers 401 with the role reason; a gate that panicked answers 500 |
| Handlers.InputError | handlers/handlers.go:50-80 | the request passes the input checks exactly when email, username, role and password length are valid; a failure is a 400 |
| Handlers.SignUpVerdict | handlers/handlers.go:50-130 | each refusal names a check that failed: no hash, an invalid phone, a known email, a known phone with a new email, or a failed insert after both lookups passed |
| Handlers.BcryptKey | handlers/handlers.go:83 | the key bcrypt derives from a password is 72 bytes |
| Handlers.BcryptMatchesOwnPlaintext | handlers/handlers.go:83-156 | a hasher that matches by bcrypt's key accepts every hash against its own plaintext |
| Handlers.BcryptKeyTruncates | handlers/handlers.go:83-156 | bytes after the 72nd do not change the key |
| Handlers.BcryptKeyPrefix | handlers/handlers.go:83-156 | a password of at most 71 bytes starts the key, followed by a zero byte, the first one when the password has none |
| Handlers.BcryptKeyInjective | handlers/handlers.go:83-156 | for byte strings of at most 71 bytes without a zero byte, equal keys mean equal strings |
| Handlers.LongPasswordIgnoresSuffix | handlers/handlers.go:74-156 | a password of 72 bytes or more has the same key as the password with anything appended |
| Handlers.ShortPasswordsDistinguished | handlers/handlers.go:74-156 | two passwords of at most 71 bytes without NUL have the same key exactly when they are the same string |
| Handlers.SignUpSucceedsIff | handlers/handlers.go:50-130 | sign-up succeeds exactly when every one of its nine checks passes |
| Handlers.ShortPasswordRefused | handlers/handlers.go:74-80 | once email, username and role pass, a password under eight bytes is refused whatever the store holds |
| Handlers.DuplicatesRefused | handlers/handlers.go:104-120 | once the input is valid, a known email is refused, and a known phone with a new email; both with 500 |
| Handlers.Store.SignUp | handlers/handlers.go:39-133 | the first failing check decides the response, in the source's order; a lookup that fails with a database error reads as "not found"; a row (with the hash, the untrimmed phone and the next id) is added exactly on success; nothing else changes |
| Handlers.Store.Login | handlers/handlers.go:135-188 | an unknown email, a failed lookup or a wrong password is 401 with no token; otherwise the claims carry the request email, the stored role and an expiry 24 hours ahead, and a signing failure is 500 |
| Handlers.Store.SignUpThenLogin | handlers/handlers.go:83-163 | after a successful sign-up, the same plaintext never fails on the password; with bcrypt's key derivation, an attempt fails on the password exactly when its key differs from the password's |
| Handlers.Store.GetAllUsersEmail | handlers/handlers.go:190-211 | non-admins get the gate's reply; otherwise every stored email, or 400 on a query failure |
| Handlers.Store.CreateCareer | handlers/handlers.go:213-297 | gate, body, missing list, date range (equal dates accepted), insert, webhook in that order; the row is added exactly when the insert succeeds, even if the webhook then fails |
| Handlers.Store.GetCareerByJobId | handlers/handlers.go:299-324 | gate before id parsing before lookup; the stored row on success, 400 on a bad id or no row |
| Handlers.Store.GetAllCareers | handlers/handlers.go:326-346 | the gate's reply, or all stored careers, or 400 |
| Handlers.Store.UpdateCareerById | handlers/handlers.go:348-401 | gate, body, id in that order; on success the row becomes the merge of the payload with the stored row (the zero row when the lookup failed) under the path id; otherwise nothing changes |
| Handlers.Store.RepeatedCareerUpdate | handlers/handlers.go:348-401 | the same career update sent twice answers the same both times, and after a success the table is as the first update left it |
| Handlers.Store.DeleteCareerById | handlers/handlers.go:403-430 | gate, id, then the row is removed and returned, or 400 with nothing changed |
| Handlers.Store.CreateProfile | handlers/handlers.go:432-488 | gate, body, missing list, insert in that order; the profile is added with the next id exactly on success, and the payload is echoed |
| Handlers.Store.GetProfileById | handlers/handlers.go:490-516 | gate before id parsing before lookup; the stored profile on success |
| Handlers.Store.GetAllProfiles | handlers/handlers.go:518-538 | the gate's reply, or all stored profiles, or 400 |
| Handlers.Store.DeleteProfileById | handlers/handlers.go:540-566 | users only; any profile is removed and returned, or 400 with nothing changed |
| Handlers.Store.UpdateProfileById | handlers/handlers.go:568-620 | users only; on success the profile becomes the merge under the path id (age 0 keeps the stored age) |
| Handlers.Store.RepeatedProfileUpdate | handlers/handlers.go:568-620 | the same profile update sent twice answers the same both times, and after a success the table is as the first update left it |

## Left out

- JWT parsing, signature checking and `token.Valid` are library calls. They are a parameter, `TokenParser`, that returns a claim map or fails. Signing is a parameter, `Signer`, that may fail. Whether the library ever yields an `int64` `exp` is left to the parser, so an `exp` of any other type is never expired.
- bcrypt is an oracle, `Hasher`. It has a generate step that may fail and a match relation. Its salt, cost and randomness are not modelled. `Handlers.MatchesOwnPlaintext` (a hash accepts the plaintext it was made from) is the only assumption `Handlers.Store.SignUpThenLogin` requires.
- Handlers.BcryptHasher: it takes a bcrypt match to be decided by the 72-byte key alone. It does not model the Blowfish rounds, and it assumes that two different keys never give the same hash.
- Handlers.Store.SignUpThenLogin states the converse (an attempt that differs is refused) only through the key. bcrypt reads just the first 72 bytes of a password. So a password of 72 bytes or more also logs in with any extension of it (`Handlers.LongPasswordIgnoresSuffix`). A longer password is refused at sign-up only by library versions that reject it, which is a failure of `generate`. The plaintext decides the match only for passwords and attempts of at most 71 bytes without NUL (`Handlers.ShortPasswordsDistinguished`).
- Each database call is reduced to a map operation plus a boolean for whether it succeeds. SignUp's two duplicate lookups and Login's email lookup each get a boolean too, and the source treats any of their errors as "not found". The SQL queries and the generated `database` package are not part of this model. A lookup error other than "no row" is not distinguished from "no row".
- Handlers.Store.SignUp: when a lookup failed and the email or phone is in fact taken, the insert is taken to fail (`CreateFailed`), as a unique constraint on those columns would make it. The schema the program creates at start-up, `sql/schema.sql`, is not part of this model. So the uniqueness of emails and phones kept by `Handlers.Store.Valid`, and the users map keyed by email, are assumptions of the model.
- The serial id columns are modelled as counters that advance only when an insert succeeds. A Postgres `BIGSERIAL` also uses up a value on a failed insert, so real ids can have gaps that the model does not produce.
- Handlers.Store.CreateProfile: it takes the profile table to assign the user id, as its `BIGSERIAL` column does in drivers/driver.go. This assumes `CreateProfileParams` has no `Userid` field, and the generated `database` package is not part of this model.
- The webhook POST in CreateCareer is the boolean `webhookOk`. `json.Marshal` of the career cannot fail on these fields and is not modelled.
- BindJSON is reduced to `Option`: a body that decodes, or none. JSON rendering is reduced to the `Response` pair plus the returned rows.
- `time.Now()` is the parameter `now`, in Unix seconds. A `time.Time` is an integer count from the zero instant. The `created_at`/`updated_at` columns are not modelled.
- Concurrency between requests is not modelled; each method runs alone.
- Route registration, the database connection and the DDL (routers/routers.go, drivers/driver.go, main.go) are not part of this model. main.go runs the embedded `sql/schema.sql`, which is not part of this model either. `drivers.TableCreation`, whose tables have no unique constraints, is never called.
- Handlers.Store.GetAllUsersEmail, GetAllCareers and GetAllProfiles return sets, not the ordered lists the queries produce: the order of rows is not modelled.
- Authentication.StripScheme works on the header's bytes. Ranging over a Go string visits rune start indices, and a space byte is always a rune start, so the branches taken are the same.
