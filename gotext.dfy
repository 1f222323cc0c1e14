/** The three pieces of Go's standard library whose exact behaviour decides
    what the handlers accept: `strings.TrimSpace` (phone numbers), `len` on a
    string, which counts UTF-8 bytes (passwords), and `strconv.Atoi` (path
    ids). */
module GoText {
  import opened Common

  /** `unicode.IsSpace`: the Unicode White_Space characters. */
  predicate IsSpace(c: char) {
    c == ' ' || c == '\t' || c == '\n' || c == '\r' || c == '\U{0B}' || c == '\U{0C}'
    || c == '\U{85}' || c == '\U{A0}' || c == '\U{1680}'
    || ('\U{2000}' <= c <= '\U{200A}')
    || c == '\U{2028}' || c == '\U{2029}' || c == '\U{202F}' || c == '\U{205F}' || c == '\U{3000}'
  }

  /** Leading white space removed. */
  function TrimLeft(s: string): (t: string)
    ensures |t| <= |s|
  {
    if |s| > 0 && IsSpace(s[0]) then TrimLeft(s[1..]) else s
  }

  /** Trailing white space removed. */
  function TrimRight(s: string): (t: string)
    ensures |t| <= |s|
  {
    if |s| > 0 && IsSpace(s[|s| - 1]) then TrimRight(s[..|s| - 1]) else s
  }

  /** What TrimLeft leaves is a suffix of `s`, what it removed is all white
      space, and what it leaves does not start with any. */
  lemma {:induction false} TrimLeftTrims(s: string)
    ensures var t := TrimLeft(s);
      && t == s[|s| - |t|..]
      && (forall k | 0 <= k < |s| - |t| :: IsSpace(s[k]))
      && (|t| > 0 ==> !IsSpace(t[0]))
  {
    if |s| > 0 && IsSpace(s[0]) {
      TrimLeftTrims(s[1..]);
      var t := TrimLeft(s[1..]);
      assert forall k | 1 <= k < |s| - |t| :: s[k] == s[1..][k - 1];
    }
  }

  /** What TrimRight leaves is a prefix of `s`, what it removed is all white
      space, and what it leaves does not end with any. */
  lemma {:induction false} TrimRightTrims(s: string)
    ensures var t := TrimRight(s);
      && t == s[..|t|]
      && (forall k | |t| <= k < |s| :: IsSpace(s[k]))
      && (|t| > 0 ==> !IsSpace(t[|t| - 1]))
  {
    if |s| > 0 && IsSpace(s[|s| - 1]) {
      TrimRightTrims(s[..|s| - 1]);
      var t := TrimRight(s[..|s| - 1]);
      assert forall k | |t| <= k < |s| - 1 :: s[k] == s[..|s| - 1][k];
    }
  }

  /** `t` is what is left of `s` between white space `s[..i]` and white space
      `s[j..]`, and `t` neither starts nor ends with white space. */
  ghost predicate TrimmedAt(s: string, t: string, i: nat, j: nat) {
    && i <= j <= |s| && t == s[i..j]
    && (forall k | 0 <= k < i :: IsSpace(s[k]))
    && (forall k | j <= k < |s| :: IsSpace(s[k]))
    && (i < j ==> !IsSpace(s[i]) && !IsSpace(s[j - 1]))
  }

  /** `strings.TrimSpace`: leading white space removed, then trailing. */
  function TrimSpace(s: string): (t: string)
    ensures |t| <= |s|
    ensures |s| > 0 && !IsSpace(s[0]) && !IsSpace(s[|s| - 1]) ==> t == s
  {
    TrimRight(TrimLeft(s))
  }

  /** TrimSpace leaves the middle of `s` between two runs of white space, and
      that middle neither starts nor ends with white space. */
  lemma TrimSpaceTrims(s: string)
    ensures exists i: nat, j: nat :: TrimmedAt(s, TrimSpace(s), i, j)
  {
    var l := TrimLeft(s);
    var t := TrimRight(l);
    TrimLeftTrims(s);
    TrimRightTrims(l);
    var i := |s| - |l|;
    assert s[i..i + |t|] == t;
    assert forall k | i + |t| <= k < |s| :: s[k] == l[k - i];
    assert t == TrimSpace(s) && TrimmedAt(s, t, i, i + |t|);
  }

  /** Any way of peeling white space off both ends of `s` that leaves no
      white space at either end leaves exactly `TrimSpace(s)`. */
  lemma TrimSpaceUnique(s: string, t: string, i: nat, j: nat)
    requires TrimmedAt(s, t, i, j)
    ensures t == TrimSpace(s)
  {
    TrimSpaceTrims(s);
    var u := TrimSpace(s);
    var i': nat, j': nat :| TrimmedAt(s, u, i', j');
    if i < j {
      assert i' < j' && i == i' && j == j';
    } else {
      assert i' == j';
    }
  }

  /** Bytes in the UTF-8 encoding of one character. */
  function RuneLen(c: char): (n: nat)
    ensures 1 <= n <= 4
  {
    if c as int < 0x80 then 1
    else if c as int < 0x800 then 2
    else if c as int < 0x1_0000 then 3
    else 4
  }

  /** `len(s)` of a Go string: the length of its UTF-8 encoding. */
  function Utf8Len(s: string): (n: nat)
    ensures |s| <= n <= 4 * |s|
  {
    if |s| == 0 then 0 else RuneLen(s[0]) + Utf8Len(s[1..])
  }

  /** An all-ASCII string has exactly as many bytes as characters. */
  lemma {:induction false} Utf8LenBounds(s: string)
    ensures (forall i | 0 <= i < |s| :: s[i] as int < 0x80) ==> Utf8Len(s) == |s|
  {
    if |s| > 0 {
      Utf8LenBounds(s[1..]);
      assert forall i | 0 <= i < |s| - 1 :: s[1..][i] == s[i + 1];
    }
  }

  /** The UTF-8 encoding of one character. */
  function RuneBytes(c: char): (b: seq<byte>)
    ensures |b| == RuneLen(c)
  {
    var n := c as int;
    if n < 0x80 then [n]
    else if n < 0x800 then [0xC0 + n / 64, 0x80 + n % 64]
    else if n < 0x1_0000 then [0xE0 + n / 4096, 0x80 + (n / 64) % 64, 0x80 + n % 64]
    else [0xF0 + n / 0x4_0000, 0x80 + (n / 4096) % 64, 0x80 + (n / 64) % 64, 0x80 + n % 64]
  }

  /** `[]byte(s)`: the UTF-8 encoding of a string. */
  function Bytes(s: string): (b: seq<byte>)
    ensures |b| == Utf8Len(s)
  {
    if |s| == 0 then [] else RuneBytes(s[0]) + Bytes(s[1..])
  }

  /** The code point a well-formed 1- to 4-byte UTF-8 sequence stands for. */
  function RuneValue(b: seq<byte>): int
    requires 1 <= |b| <= 4
  {
    var b0, b1, b2, b3 := b[0] as int, if |b| > 1 then b[1] as int else 0,
                          if |b| > 2 then b[2] as int else 0, if |b| > 3 then b[3] as int else 0;
    if |b| == 1 then b0
    else if |b| == 2 then (b0 - 0xC0) * 64 + (b1 - 0x80)
    else if |b| == 3 then (b0 - 0xE0) * 4096 + (b1 - 0x80) * 64 + (b2 - 0x80)
    else (b0 - 0xF0) * 0x4_0000 + (b1 - 0x80) * 4096 + (b2 - 0x80) * 64 + (b3 - 0x80)
  }

  /** The encoding's length, read off its first byte. */
  function LeadLen(b: byte): nat {
    if b < 0x80 then 1 else if b < 0xE0 then 2 else if b < 0xF0 then 3 else 4
  }

  /** Decoding a character's encoding gives the character back, and the
      first byte tells how many bytes belong to it. */
  lemma RuneBytesDecode(c: char)
    ensures RuneValue(RuneBytes(c)) == c as int
    ensures LeadLen(RuneBytes(c)[0]) == RuneLen(c)
  {
    var n := c as int;
    if 0x800 <= n < 0x1_0000 {
      var q := n / 64;
      assert n == q * 64 + n % 64;
      assert n / 4096 == q / 64;
      assert q == (q / 64) * 64 + q % 64;
    } else if 0x1_0000 <= n {
      var q := n / 64;
      var q' := q / 64;
      assert n == q * 64 + n % 64;
      assert q == q' * 64 + q % 64;
      assert n / 4096 == q';
      assert q' == (q' / 64) * 64 + q' % 64;
      assert n / 0x4_0000 == q' / 64;
    }
  }

  /** Concatenation is encoded piecewise. */
  lemma {:induction false} BytesAppend(a: string, b: string)
    ensures Bytes(a + b) == Bytes(a) + Bytes(b)
  {
    if |a| == 0 {
      assert a + b == b;
    } else {
      assert (a + b)[1..] == a[1..] + b;
      BytesAppend(a[1..], b);
    }
  }

  /** Different strings have different encodings. */
  lemma {:induction false} BytesInjective(s: string, t: string)
    requires Bytes(s) == Bytes(t)
    ensures s == t
  {
    if |s| > 0 && |t| > 0 {
      var bs, bt := Bytes(s), Bytes(t);
      RuneBytesDecode(s[0]);
      RuneBytesDecode(t[0]);
      var len := RuneLen(s[0]);
      assert bs[0] == RuneBytes(s[0])[0] && bt[0] == RuneBytes(t[0])[0];
      assert RuneLen(t[0]) == len;
      assert RuneBytes(s[0]) == bs[..len] == bt[..len] == RuneBytes(t[0]);
      assert Bytes(s[1..]) == bs[len..] == bt[len..] == Bytes(t[1..]);
      BytesInjective(s[1..], t[1..]);
      assert s == [s[0]] + s[1..] && t == [t[0]] + t[1..];
    }
  }

  /** Only the character NUL encodes to a zero byte. */
  lemma {:induction false} NulFreeBytes(s: string)
    requires '\0' !in s
    ensures 0 !in Bytes(s)
  {
    if |s| > 0 {
      assert s[0] != '\0';
      assert '\0' !in s[1..];
      NulFreeBytes(s[1..]);
    }
  }

  predicate IsDigit(c: char) {
    '0' <= c <= '9'
  }

  predicate AllDigits(s: string) {
    forall i | 0 <= i < |s| :: IsDigit(s[i])
  }

  function DigitValue(c: char): nat
    requires IsDigit(c)
  {
    c as int - '0' as int
  }

  /** The value of a string of decimal digits. */
  function DecimalValue(d: string): nat
    requires AllDigits(d)
  {
    if |d| == 0 then 0 else DecimalValue(d[..|d| - 1]) * 10 + DigitValue(d[|d| - 1])
  }

  /** `strconv.Atoi`: an optional '+' or '-' followed by at least one decimal
      digit, whose value fits in an `int64`; anything else is an error. */
  function Atoi(s: string): (r: Option<int>)
    ensures r.Some? ==> MinInt64 <= r.value <= MaxInt64
    ensures r.Some? ==> |s| > 0 && AllDigits(s[1..])
    ensures r.Some? ==> IsDigit(s[0]) || ((s[0] == '-' || s[0] == '+') && |s| > 1)
  {
    if |s| == 0 then None
    else
      var digits := if s[0] == '-' || s[0] == '+' then s[1..] else s;
      if |digits| == 0 || !AllDigits(digits) then None
      else
        var v: int := if s[0] == '-' then -(DecimalValue(digits) as int) else DecimalValue(digits);
        if MinInt64 <= v <= MaxInt64 then Some(v) else None
  }

  /** Digits without a sign parse to their value when it fits in an `int64`;
      leading zeros are allowed. */
  lemma AtoiDigits(d: string)
    requires |d| > 0 && AllDigits(d)
    ensures Atoi(d) == Some(DecimalValue(d)) <==> DecimalValue(d) <= MaxInt64
  {
    assert IsDigit(d[0]);
  }

  /** A leading '+' changes nothing. */
  lemma AtoiPlus(d: string)
    requires |d| > 0 && AllDigits(d)
    ensures Atoi("+" + d) == Atoi(d)
  {
    var plus := "+" + d;
    assert IsDigit(d[0]) && plus[0] == '+';
    assert plus[1..] == d;
  }

  /** A leading '-' negates the value, which parses when it fits in an
      `int64`. */
  lemma AtoiMinus(d: string)
    requires |d| > 0 && AllDigits(d)
    ensures Atoi("-" + d) == Some(-(DecimalValue(d) as int)) <==> DecimalValue(d) <= -MinInt64
  {
    var minus := "-" + d;
    assert minus[0] == '-';
    assert minus[1..] == d;
  }

  function DigitChar(n: nat): char
    requires n < 10
  {
    ('0' as int + n) as char
  }

  /** The shortest decimal digits of `n`. */
  function FormatNat(n: nat): string {
    if n < 10 then [DigitChar(n)] else FormatNat(n / 10) + [DigitChar(n % 10)]
  }

  /** `strconv.Itoa`. */
  function FormatInt(n: int): string {
    if n < 0 then "-" + FormatNat(-n) else FormatNat(n)
  }

  lemma {:induction false} FormatNatDigits(n: nat)
    ensures |FormatNat(n)| > 0 && AllDigits(FormatNat(n))
    ensures DecimalValue(FormatNat(n)) == n
  {
    if n >= 10 {
      FormatNatDigits(n / 10);
      var s := FormatNat(n);
      assert s[..|s| - 1] == FormatNat(n / 10);
    }
  }

  /** Every `int64` written in decimal parses back to itself. */
  lemma AtoiRoundTrip(n: int)
    requires MinInt64 <= n <= MaxInt64
    ensures Atoi(FormatInt(n)) == Some(n)
  {
    var m: nat := if n < 0 then -n else n;
    var d := FormatNat(m);
    FormatNatDigits(m);
    var s := FormatInt(n);
    if n < 0 {
      assert s == "-" + d;
      assert s[0] == '-' && s[1..] == d;
    } else {
      assert s == d && IsDigit(s[0]);
    }
  }

}
