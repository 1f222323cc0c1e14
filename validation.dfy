/** The input rules of handlers/handlers.go: the email and phone patterns and
    the password length of SignUp, the lists of missing fields of
    CreateCareer and CreateProfile, and the partial-update merges of
    UpdateCareerById and UpdateProfileById. */
module Validation {
  import opened Common
  import opened GoText
  import opened Records

  // ---------------------------------------------------------------------
  // Email: ^[a-z0-9._%+\-]+@[a-z0-9.\-]+\.[a-z]{2,4}$
  // ---------------------------------------------------------------------

  predicate LocalChar(c: char) {
    'a' <= c <= 'z' || '0' <= c <= '9' || c == '.' || c == '_' || c == '%' || c == '+' || c == '-'
  }

  predicate DomainChar(c: char) {
    'a' <= c <= 'z' || '0' <= c <= '9' || c == '.' || c == '-'
  }

  predicate LowerChar(c: char) {
    'a' <= c <= 'z'
  }

  predicate LocalRange(s: string, lo: nat, hi: nat)
    requires lo <= hi <= |s|
  {
    forall k | lo <= k < hi :: LocalChar(s[k])
  }

  predicate DomainRange(s: string, lo: nat, hi: nat)
    requires lo <= hi <= |s|
  {
    forall k | lo <= k < hi :: DomainChar(s[k])
  }

  predicate LowerRange(s: string, lo: nat, hi: nat)
    requires lo <= hi <= |s|
  {
    forall k | lo <= k < hi :: LowerChar(s[k])
  }

  /** `s` read as the regular expression's three parts: a non-empty local
      part `s[..at]`, '@', a non-empty domain `s[at+1..dot]`, '.', and a
      top-level domain of 2 to 4 lower-case letters that ends the string. */
  ghost predicate EmailSplit(s: string, at: nat, dot: nat) {
    && 0 < at && at + 1 < dot < |s|
    && s[at] == '@' && s[dot] == '.'
    && LocalRange(s, 0, at) && DomainRange(s, at + 1, dot)
    && 2 <= |s| - dot - 1 <= 4 && LowerRange(s, dot + 1, |s|)
  }

  /** The language of the email regular expression. */
  ghost predicate EmailPattern(s: string) {
    exists at: nat, dot: nat :: EmailSplit(s, at, dot)
  }

  /** The first occurrence of `c` in `s`. */
  function FirstIndex(s: string, c: char): (r: Option<nat>)
    ensures r.Some? ==> r.value < |s| && s[r.value] == c
  {
    if |s| == 0 then None
    else if s[0] == c then Some(0)
    else match FirstIndex(s[1..], c)
      case None => None
      case Some(i) => Some(i + 1)
  }

  /** The last occurrence of `c` in `s`. */
  function LastIndex(s: string, c: char): (r: Option<nat>)
    ensures r.Some? ==> r.value < |s| && s[r.value] == c
  {
    if |s| == 0 then None
    else if s[|s| - 1] == c then Some(|s| - 1)
    else LastIndex(s[..|s| - 1], c)
  }

  /** FirstIndex finds an occurrence with none before it, and finds none
      only when there is none. */
  lemma {:induction false} FirstIndexFirst(s: string, c: char)
    ensures FirstIndex(s, c).Some? ==> forall k | 0 <= k < FirstIndex(s, c).value :: s[k] != c
    ensures FirstIndex(s, c).None? ==> forall k | 0 <= k < |s| :: s[k] != c
  {
    if |s| > 0 && s[0] != c {
      FirstIndexFirst(s[1..], c);
      assert forall k | 1 <= k < |s| :: s[k] == s[1..][k - 1];
    }
  }

  /** LastIndex finds an occurrence with none after it, and finds none only
      when there is none. */
  lemma {:induction false} LastIndexLast(s: string, c: char)
    ensures LastIndex(s, c).Some? ==> forall k | LastIndex(s, c).value < k < |s| :: s[k] != c
    ensures LastIndex(s, c).None? ==> forall k | 0 <= k < |s| :: s[k] != c
  {
    if |s| > 0 && s[|s| - 1] != c {
      LastIndexLast(s[..|s| - 1], c);
      assert forall k | 0 <= k < |s| - 1 :: s[k] == s[..|s| - 1][k];
    }
  }

  /** `emailRegex.MatchString(email)` (handlers.go:50-51), decided by
      splitting at the first '@' and the last '.': no character class of the
      expression holds '@', and the top-level domain holds no '.'. */
  function EmailValid(s: string): (r: bool)
    ensures r ==> 6 <= |s| && '@' in s && s[0] != '@' && LowerChar(s[|s| - 1])
  {
    match FirstIndex(s, '@')
    case None => false
    case Some(at) =>
      match LastIndex(s, '.')
      case None => false
      case Some(dot) =>
        && 0 < at && at + 1 < dot
        && LocalRange(s, 0, at) && DomainRange(s, at + 1, dot)
        && 2 <= |s| - dot - 1 <= 4 && LowerRange(s, dot + 1, |s|)
  }

  /** The decision procedure accepts exactly the language of the expression. */
  lemma EmailValidIff(s: string)
    ensures EmailValid(s) <==> EmailPattern(s)
  {
    if EmailValid(s) {
      var at := FirstIndex(s, '@').value;
      var dot := LastIndex(s, '.').value;
      assert EmailSplit(s, at, dot);
    }
    if EmailPattern(s) {
      var at: nat, dot: nat :| EmailSplit(s, at, dot);
      FirstIndexFirst(s, '@');
      LastIndexLast(s, '.');
      // '@' is in no class of the local part, '.' in no class of the TLD
      assert FirstIndex(s, '@') == Some(at);
      assert LastIndex(s, '.') == Some(dot);
    }
  }

  /** Every character of an accepted address is '@' or a local-part character
      (the other two classes are contained in that one). */
  lemma EmailCharacters(s: string)
    requires EmailValid(s)
    ensures forall i | 0 <= i < |s| :: s[i] == '@' || LocalChar(s[i])
  {
    EmailValidIff(s);
    var at: nat, dot: nat :| EmailSplit(s, at, dot);
    forall i | 0 <= i < |s| ensures s[i] == '@' || LocalChar(s[i]) {
      if i < at {
        assert LocalChar(s[i]);
      } else if at < i < dot {
        assert DomainChar(s[i]);
      } else if dot < i {
        assert LowerChar(s[i]);
      }
    }
  }

  /** So an address with an upper-case letter is refused. */
  lemma EmailRejectsUppercase(s: string, i: nat)
    requires i < |s| && 'A' <= s[i] <= 'Z'
    ensures !EmailValid(s)
  {
    if EmailValid(s) {
      EmailCharacters(s);
    }
  }

  /** The address of the signup example is accepted. */
  lemma AliceEmailAccepted()
    ensures EmailValid("alice@x.com")
  {
    assert EmailSplit("alice@x.com", 5, 7);
    EmailValidIff("alice@x.com");
  }

  // ---------------------------------------------------------------------
  // Phone: ^[0-9]{10}$ after strings.TrimSpace
  // ---------------------------------------------------------------------

  /** handlers.go:94-96. */
  predicate PhoneValid(phone: string)
    ensures PhoneValid(phone) ==> |phone| >= 10
    ensures |phone| == 10 && AllDigits(phone) ==> PhoneValid(phone)
  {
    var t := TrimSpace(phone);
    |t| == 10 && AllDigits(t)
  }

  /** Ten digits at `i`, with nothing but white space around them. */
  ghost predicate PaddedDigits(phone: string, i: nat) {
    && i + 10 <= |phone|
    && (forall k | 0 <= k < i :: IsSpace(phone[k]))
    && (forall k | i <= k < i + 10 :: IsDigit(phone[k]))
    && (forall k | i + 10 <= k < |phone| :: IsSpace(phone[k]))
  }

  lemma PhoneValidWhenPadded(phone: string, i: nat)
    requires PaddedDigits(phone, i)
    ensures PhoneValid(phone)
  {
    var t := phone[i..i + 10];
    assert forall k | 0 <= k < 10 :: t[k] == phone[i + k];
    assert !IsSpace(phone[i]) && !IsSpace(phone[i + 9]);
    assert TrimmedAt(phone, t, i, i + 10);
    TrimSpaceUnique(phone, t, i, i + 10);
  }

  lemma PaddedWhenPhoneValid(phone: string) returns (i: nat)
    requires PhoneValid(phone)
    ensures PaddedDigits(phone, i)
  {
    TrimSpaceTrims(phone);
    var t := TrimSpace(phone);
    var j: nat;
    i, j :| TrimmedAt(phone, t, i, j);
    assert forall k | i <= k < i + 10 :: phone[k] == t[k - i];
  }

  /** A phone number is accepted exactly when it is ten digits padded with
      white space on either side. */
  lemma PhoneValidIff(phone: string)
    ensures PhoneValid(phone) <==> exists i: nat :: PaddedDigits(phone, i)
  {
    if PhoneValid(phone) {
      var i := PaddedWhenPhoneValid(phone);
    }
    if exists i: nat :: PaddedDigits(phone, i) {
      var i: nat :| PaddedDigits(phone, i);
      PhoneValidWhenPadded(phone, i);
    }
  }

  /** Ten digits and the same digits after a space are both accepted, yet
      they are different strings: the duplicate lookup and the insert use the
      untrimmed value (handlers.go:113, 122), so both can be stored. */
  lemma PaddedPhoneIsAnotherPhone(d: string)
    requires |d| == 10 && AllDigits(d)
    ensures PhoneValid(d) && PhoneValid(" " + d) && d != " " + d
  {
    PhoneValidWhenPadded(d, 0);
    LeadingSpaceAccepted(d);
  }

  lemma LeadingSpaceAccepted(d: string)
    requires |d| == 10 && AllDigits(d)
    ensures PhoneValid(" " + d)
  {
    var padded := " " + d;
    assert forall k | 1 <= k < 11 :: padded[k] == d[k - 1];
    assert PaddedDigits(padded, 1);
    PhoneValidWhenPadded(padded, 1);
  }

  // ---------------------------------------------------------------------
  // Password: len(password) >= 8, in bytes
  // ---------------------------------------------------------------------

  /** handlers.go:74: `len` counts UTF-8 bytes. */
  predicate PasswordLongEnough(password: string)
    ensures |password| >= 8 ==> PasswordLongEnough(password)
    ensures PasswordLongEnough(password) ==> |password| >= 2
  {
    Utf8Len(password) >= 8
  }

  /** For an ASCII password the boundary is exactly eight characters (the
      message says "more than 8", the check accepts 8). */
  lemma PasswordBoundary(password: string)
    ensures (forall i | 0 <= i < |password| :: password[i] as int < 0x80) ==>
              (PasswordLongEnough(password) <==> |password| >= 8)
  {
    Utf8LenBounds(password);
  }

  /** Four two-byte characters make an acceptable password. */
  lemma FourAccentedLettersAccepted()
    ensures PasswordLongEnough("\U{E9}\U{E9}\U{E9}\U{E9}")
  {
    var e := "\U{E9}";
    assert Utf8Len(e) == 2 by { assert e[1..] == []; }
    assert Utf8Len(e + e) == 4 by { assert (e + e)[1..] == e; }
    assert Utf8Len(e + e + e) == 6 by { assert (e + e + e)[1..] == e + e; }
    assert Utf8Len(e + e + e + e) == 8 by { assert (e + e + e + e)[1..] == e + e + e; }
    assert e + e + e + e == "\U{E9}\U{E9}\U{E9}\U{E9}";
  }

  // ---------------------------------------------------------------------
  // Missing fields (handlers.go:232-250 and 449-461)
  // ---------------------------------------------------------------------

  /** Field `f` is one of Company, Position, Jobtype, Description, Startdate
      and Enddate, and is empty in the career payload (a zero date for the
      dates). */
  predicate CareerFieldMissing(c: CareerInput, f: Field) {
    match f
    case Company => c.company == ""
    case Position => c.position == ""
    case Jobtype => c.jobtype == ""
    case Description => c.description == ""
    case Startdate => c.startdate == ZeroTime
    case Enddate => c.enddate == ZeroTime
    case _ => false
  }

  /** The position of a field in the order its handler checks it: Company
      to Enddate for careers, Fullname to Age for profiles. */
  function FieldRank(f: Field): nat {
    match f
    case Company => 0
    case Position => 1
    case Jobtype => 2
    case Description => 3
    case Startdate => 4
    case Enddate => 5
    case Fullname => 0
    case Address => 1
    case Gender => 2
    case Age => 3
  }

  /** Fields listed in strictly increasing rank: no field twice, and in the
      order of their list. */
  predicate InRankOrder(fs: seq<Field>) {
    forall i, j | 0 <= i < j < |fs| :: FieldRank(fs[i]) < FieldRank(fs[j])
  }

  /** The fields of `fields` that are empty in `c`, in the order of `fields`:
      what successive `append`s of the empty ones build. */
  function CareerMissingAmong(c: CareerInput, fields: seq<Field>): seq<Field> {
    if fields == [] then []
    else
      var last := fields[|fields| - 1];
      CareerMissingAmong(c, fields[..|fields| - 1]) + (if CareerFieldMissing(c, last) then [last] else [])
  }

  const CareerFields: seq<Field> := [Company, Position, Jobtype, Description, Startdate, Enddate]

  /** `fs` is a correct `missingFields` list for career payload `c`: exactly
      its empty fields, in the order the handler checks them. */
  ghost predicate ListsCareerMissing(c: CareerInput, fs: seq<Field>) {
    && (forall f :: f in fs <==> f in CareerFields && CareerFieldMissing(c, f))
    && InRankOrder(fs)
  }

  /** A field is in the list exactly when it is one of the examined fields
      and is empty. */
  lemma {:induction false} CareerMissingAmongMembers(c: CareerInput, fields: seq<Field>)
    ensures forall f :: f in CareerMissingAmong(c, fields) <==> f in fields && CareerFieldMissing(c, f)
  {
    if fields != [] {
      var init := fields[..|fields| - 1];
      CareerMissingAmongMembers(c, init);
      assert fields == init + [fields[|fields| - 1]];
    }
  }

  /** Examining fields in rank order lists the empty ones in rank order. */
  lemma {:induction false} CareerMissingAmongOrdered(c: CareerInput, fields: seq<Field>)
    requires InRankOrder(fields)
    ensures InRankOrder(CareerMissingAmong(c, fields))
  {
    if fields != [] {
      var init := fields[..|fields| - 1];
      var last := fields[|fields| - 1];
      CareerMissingAmongOrdered(c, init);
      CareerMissingAmongMembers(c, init);
      var r := CareerMissingAmong(c, init);
      forall x | x in r
        ensures FieldRank(x) < FieldRank(last)
      {
        var k :| 0 <= k < |init| && init[k] == x;
      }
      AppendInRankOrder(r, last);
    }
  }

  /** Appending a field of higher rank than every listed one keeps the order. */
  lemma AppendInRankOrder(fs: seq<Field>, f: Field)
    requires InRankOrder(fs)
    requires forall x | x in fs :: FieldRank(x) < FieldRank(f)
    ensures InRankOrder(fs + [f])
  {
    var fs' := fs + [f];
    forall i, j | 0 <= i < j < |fs'|
      ensures FieldRank(fs'[i]) < FieldRank(fs'[j])
    {
      if j == |fs| {
        assert fs'[i] == fs[i] && fs[i] in fs;
      }
    }
  }

  /** No required career field is empty. */
  predicate CareerComplete(c: CareerInput) {
    && c.company != "" && c.position != "" && c.jobtype != "" && c.description != ""
    && c.startdate != ZeroTime && c.enddate != ZeroTime
  }

  /** The appends that build the `missingFields` list of CreateCareer
      (handlers.go:232-250), one field after the other. */
  method AppendCareerMissing(c: CareerInput) returns (missing: seq<Field>)
    ensures missing == CareerMissingAmong(c, CareerFields)
  {
    missing := [];
    if c.company == "" {
      missing := missing + [Company];
    }
    assert CareerFields[..1][..0] == [];
    assert missing == CareerMissingAmong(c, CareerFields[..1]);
    if c.position == "" {
      missing := missing + [Position];
    }
    assert CareerFields[..2][..1] == CareerFields[..1];
    assert missing == CareerMissingAmong(c, CareerFields[..2]);
    if c.jobtype == "" {
      missing := missing + [Jobtype];
    }
    assert CareerFields[..3][..2] == CareerFields[..2];
    assert missing == CareerMissingAmong(c, CareerFields[..3]);
    if c.description == "" {
      missing := missing + [Description];
    }
    assert CareerFields[..4][..3] == CareerFields[..3];
    assert missing == CareerMissingAmong(c, CareerFields[..4]);
    if c.startdate == ZeroTime {
      missing := missing + [Startdate];
    }
    assert CareerFields[..5][..4] == CareerFields[..4];
    assert missing == CareerMissingAmong(c, CareerFields[..5]);
    if c.enddate == ZeroTime {
      missing := missing + [Enddate];
    }
    assert CareerFields[..6][..5] == CareerFields[..5];
    assert CareerFields[..6] == CareerFields;
  }

  /** The list the handler builds holds exactly the empty career fields, in
      the order the handler checks them. */
  lemma CareerMissingCorrect(c: CareerInput)
    ensures ListsCareerMissing(c, CareerMissingAmong(c, CareerFields))
  {
    assert InRankOrder(CareerFields);
    CareerMissingAmongMembers(c, CareerFields);
    CareerMissingAmongOrdered(c, CareerFields);
  }

  /** The `missingFields` list of CreateCareer: what the appends build, with
      the properties proved about it. */
  method CollectCareerMissing(c: CareerInput) returns (missing: seq<Field>)
    ensures ListsCareerMissing(c, missing)
  {
    missing := AppendCareerMissing(c);
    CareerMissingCorrect(c);
  }

  /** Field `f` is one of Fullname, Address, Gender and Age, and is empty in
      the profile payload (0 for the age). */
  predicate ProfileFieldMissing(p: ProfileInput, f: Field) {
    match f
    case Fullname => p.fullname == ""
    case Address => p.address == ""
    case Gender => p.gender == ""
    case Age => p.age == 0
    case _ => false
  }

  /** The fields of `fields` that are empty in `p`, in the order of `fields`. */
  function ProfileMissingAmong(p: ProfileInput, fields: seq<Field>): seq<Field> {
    if fields == [] then []
    else
      var last := fields[|fields| - 1];
      ProfileMissingAmong(p, fields[..|fields| - 1]) + (if ProfileFieldMissing(p, last) then [last] else [])
  }

  const ProfileFields: seq<Field> := [Fullname, Address, Gender, Age]

  /** `fs` is a correct `missingFields` list for profile payload `p`. */
  ghost predicate ListsProfileMissing(p: ProfileInput, fs: seq<Field>) {
    && (forall f :: f in fs <==> f in ProfileFields && ProfileFieldMissing(p, f))
    && InRankOrder(fs)
  }

  lemma {:induction false} ProfileMissingAmongMembers(p: ProfileInput, fields: seq<Field>)
    ensures forall f :: f in ProfileMissingAmong(p, fields) <==> f in fields && ProfileFieldMissing(p, f)
  {
    if fields != [] {
      var init := fields[..|fields| - 1];
      ProfileMissingAmongMembers(p, init);
      assert fields == init + [fields[|fields| - 1]];
    }
  }

  lemma {:induction false} ProfileMissingAmongOrdered(p: ProfileInput, fields: seq<Field>)
    requires InRankOrder(fields)
    ensures InRankOrder(ProfileMissingAmong(p, fields))
  {
    if fields != [] {
      var init := fields[..|fields| - 1];
      var last := fields[|fields| - 1];
      ProfileMissingAmongOrdered(p, init);
      ProfileMissingAmongMembers(p, init);
      var r := ProfileMissingAmong(p, init);
      forall x | x in r
        ensures FieldRank(x) < FieldRank(last)
      {
        var k :| 0 <= k < |init| && init[k] == x;
      }
      AppendInRankOrder(r, last);
    }
  }

  /** No required profile field is empty (an age of 0 counts as empty). */
  predicate ProfileComplete(p: ProfileInput) {
    p.fullname != "" && p.address != "" && p.gender != "" && p.age != 0
  }

  /** The appends that build the `missingFields` list of CreateProfile
      (handlers.go:449-461), one field after the other. */
  method AppendProfileMissing(p: ProfileInput) returns (missing: seq<Field>)
    ensures missing == ProfileMissingAmong(p, ProfileFields)
  {
    missing := [];
    if p.fullname == "" {
      missing := missing + [Fullname];
    }
    assert ProfileFields[..1][..0] == [];
    assert missing == ProfileMissingAmong(p, ProfileFields[..1]);
    if p.address == "" {
      missing := missing + [Address];
    }
    assert ProfileFields[..2][..1] == ProfileFields[..1];
    assert missing == ProfileMissingAmong(p, ProfileFields[..2]);
    if p.gender == "" {
      missing := missing + [Gender];
    }
    assert ProfileFields[..3][..2] == ProfileFields[..2];
    assert missing == ProfileMissingAmong(p, ProfileFields[..3]);
    if p.age == 0 {
      missing := missing + [Age];
    }
    assert ProfileFields[..4][..3] == ProfileFields[..3];
    assert ProfileFields[..4] == ProfileFields;
  }

  /** The list the handler builds holds exactly the empty profile fields, in
      the order the handler checks them. */
  lemma ProfileMissingCorrect(p: ProfileInput)
    ensures ListsProfileMissing(p, ProfileMissingAmong(p, ProfileFields))
  {
    assert InRankOrder(ProfileFields);
    ProfileMissingAmongMembers(p, ProfileFields);
    ProfileMissingAmongOrdered(p, ProfileFields);
  }

  /** The `missingFields` list of CreateProfile: what the appends build, with
      the properties proved about it. */
  method CollectProfileMissing(p: ProfileInput) returns (missing: seq<Field>)
    ensures ListsProfileMissing(p, missing)
  {
    missing := AppendProfileMissing(p);
    ProfileMissingCorrect(p);
  }

  /** The list is empty exactly when the payload is complete, so the handler's
      `len(missingFields) > 0` test is the completeness test. */
  lemma CareerMissingEmptyIff(c: CareerInput, fs: seq<Field>)
    requires ListsCareerMissing(c, fs)
    ensures fs == [] <==> CareerComplete(c)
  {
    if fs != [] {
      assert fs[0] in fs;
    }
    if !CareerComplete(c) {
      var f := if c.company == "" then Company else if c.position == "" then Position
               else if c.jobtype == "" then Jobtype else if c.description == "" then Description
               else if c.startdate == ZeroTime then Startdate else Enddate;
      assert CareerFieldMissing(c, f);
      assert f in fs;
    }
  }

  lemma ProfileMissingEmptyIff(p: ProfileInput, fs: seq<Field>)
    requires ListsProfileMissing(p, fs)
    ensures fs == [] <==> ProfileComplete(p)
  {
    if fs != [] {
      assert fs[0] in fs;
    }
    if !ProfileComplete(p) {
      var f := if p.fullname == "" then Fullname else if p.address == "" then Address
               else if p.gender == "" then Gender else Age;
      assert ProfileFieldMissing(p, f);
      assert f in fs;
    }
  }

  /** Two rank-ordered lists with the same members are the same list; so the
      `missingFields` list of a payload is fully determined. */
  lemma {:induction false} RankOrderedUnique(a: seq<Field>, b: seq<Field>)
    requires InRankOrder(a) && InRankOrder(b)
    requires forall f :: f in a <==> f in b
    ensures a == b
  {
    assert |a| > 0 ==> a[0] in b;
    assert |b| > 0 ==> b[0] in a;
    if |a| > 0 {
      var i :| 0 <= i < |a| && a[i] == b[0];
      var j :| 0 <= j < |b| && b[j] == a[0];
      assert i == 0 || j == 0;
      assert a[0] == b[0];
      forall f
        ensures f in a[1..] <==> f in b[1..]
      {
        if f in a[1..] {
          var k :| 1 <= k < |a| && a[k] == f;
          assert FieldRank(a[0]) < FieldRank(f);
          assert f in a && f in b;
          var m :| 0 <= m < |b| && b[m] == f;
          assert m != 0;
          assert b[1..][m - 1] == f;
        }
        if f in b[1..] {
          var k :| 1 <= k < |b| && b[k] == f;
          assert FieldRank(b[0]) < FieldRank(f);
          assert f in b && f in a;
          var m :| 0 <= m < |a| && a[m] == f;
          assert m != 0;
          assert a[1..][m - 1] == f;
        }
      }
      RankOrderedUnique(a[1..], b[1..]);
      assert a == [a[0]] + a[1..];
      assert b == [b[0]] + b[1..];
    }
  }

  // ---------------------------------------------------------------------
  // Partial-update merges (handlers.go:371-386 and 589-605)
  // ---------------------------------------------------------------------

  /** An empty string in the payload means "keep the stored value". */
  function Fallback(given: string, stored: string): string {
    if given == "" then stored else given
  }

  /** The row UpdateCareerById writes: the job id from the path, each text
      field from the payload unless it is empty, the dates from the payload
      as they are. */
  function MergeCareer(payload: Career, stored: Career, id: int): (r: Career)
    ensures r.jobid == id && r.startdate == payload.startdate && r.enddate == payload.enddate
    ensures && (payload.company != "" ==> r.company == payload.company)
            && (payload.position != "" ==> r.position == payload.position)
            && (payload.jobtype != "" ==> r.jobtype == payload.jobtype)
            && (payload.description != "" ==> r.description == payload.description)
    ensures && (payload.company == "" ==> r.company == stored.company)
            && (payload.position == "" ==> r.position == stored.position)
            && (payload.jobtype == "" ==> r.jobtype == stored.jobtype)
            && (payload.description == "" ==> r.description == stored.description)
  {
    Career(id, Fallback(payload.company, stored.company), Fallback(payload.position, stored.position),
           Fallback(payload.jobtype, stored.jobtype), Fallback(payload.description, stored.description),
           payload.startdate, payload.enddate)
  }

  /** The row UpdateProfileById writes: the user id from the path, each field
      from the payload unless it is empty (0 for the age). */
  function MergeProfile(payload: Profile, stored: Profile, id: int): (r: Profile)
    ensures r.userid == id
    ensures && (payload.fullname != "" ==> r.fullname == payload.fullname)
            && (payload.age != 0 ==> r.age == payload.age)
            && (payload.gender != "" ==> r.gender == payload.gender)
            && (payload.address != "" ==> r.address == payload.address)
    ensures && (payload.fullname == "" ==> r.fullname == stored.fullname)
            && (payload.age == 0 ==> r.age == stored.age)
            && (payload.gender == "" ==> r.gender == stored.gender)
            && (payload.address == "" ==> r.address == stored.address)
  {
    Profile(id, Fallback(payload.fullname, stored.fullname),
            if payload.age == 0 then stored.age else payload.age,
            Fallback(payload.gender, stored.gender), Fallback(payload.address, stored.address))
  }

  /** Sending the same payload again, against the row the first update
      wrote, changes nothing; and the written row, sent as a payload against
      the same stored row, writes itself. */
  lemma MergeCareerIdempotent(payload: Career, stored: Career, id: int)
    ensures MergeCareer(payload, MergeCareer(payload, stored, id), id) == MergeCareer(payload, stored, id)
    ensures MergeCareer(MergeCareer(payload, stored, id), stored, id) == MergeCareer(payload, stored, id)
  {
  }

  lemma MergeProfileIdempotent(payload: Profile, stored: Profile, id: int)
    ensures MergeProfile(payload, MergeProfile(payload, stored, id), id) == MergeProfile(payload, stored, id)
    ensures MergeProfile(MergeProfile(payload, stored, id), stored, id) == MergeProfile(payload, stored, id)
  {
  }

  /** A payload with every text field set overwrites the whole row, whatever
      is stored; an empty payload keeps every stored text field. Dates and id
      never come from the stored row. */
  lemma MergeCareerExtremes(payload: Career, stored: Career, id: int)
    ensures (payload.company != "" && payload.position != "" && payload.jobtype != ""
             && payload.description != "")
         ==> MergeCareer(payload, stored, id) == payload.(jobid := id)
    ensures (payload.company == "" && payload.position == "" && payload.jobtype == ""
             && payload.description == "")
         ==> MergeCareer(payload, stored, id)
             == stored.(jobid := id, startdate := payload.startdate, enddate := payload.enddate)
  {
  }

  /** Merging with the zero struct (the stored row when the ignored lookup
      failed) writes the payload as it is: every field left empty in it is
      blanked in the table. */
  lemma MergeWithZeroCareer(payload: Career, id: int)
    ensures MergeCareer(payload, ZeroCareer, id) == payload.(jobid := id)
  {
  }

  lemma MergeWithZeroProfile(payload: Profile, id: int)
    ensures MergeProfile(payload, ZeroProfile, id) == payload.(userid := id)
  {
  }

  lemma MergeProfileExtremes(payload: Profile, stored: Profile, id: int)
    ensures payload.fullname != "" && payload.age != 0 && payload.gender != "" && payload.address != ""
         ==> MergeProfile(payload, stored, id) == payload.(userid := id)
    ensures payload.fullname == "" && payload.age == 0 && payload.gender == "" && payload.address == ""
         ==> MergeProfile(payload, stored, id) == stored.(userid := id)
  {
  }
}
