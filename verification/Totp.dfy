// One-time codes: section 5.3 of RFC 4226 for the code, sections 4.2 and 5.2 of RFC 6238 for the time window.
module Totp {
  import opened Wrappers
  import opened Text
  import opened Bits

  type Bytes = seq<bv8>

  const TOTP_STEP := 30
  const TOTP_DIGITS := 6
  const TOTP_DRIFT_STEPS := 1
  const MILLION := 1_000_000
  const TWO_TO_64 := 0x1_0000_0000_0000_0000

  /** HMAC-SHA-1 is not modelled; only the length of its result matters here. */
  ghost predicate Sha1Sized(hmac: (Bytes, Bytes) -> Bytes) {
    forall key, message :: |hmac(key, message)| == 20
  }

  // ---------------------------------------------------------------- numbers as bytes and digits

  function BigEndian(b: Bytes): nat {
    if b == [] then 0 else BigEndian(b[..|b| - 1]) * 256 + b[|b| - 1] as int
  }

  function BytesOf(v: nat, n: nat): (b: Bytes)
    ensures |b| == n
  {
    if n == 0 then [] else BytesOf(v / 256, n - 1) + [ByteOf(v % 256)]
  }

  function Power(base: nat, n: nat): nat {
    if n == 0 then 1 else base * Power(base, n - 1)
  }

  lemma PowerUnfolds(base: nat, n: nat)
    requires n > 0
    ensures Power(base, n) == base * Power(base, n - 1)
  {}

  /** Taking the last byte off a number that fits in n bytes leaves one that fits in n - 1. */
  lemma ByteLeft(v: nat, p: nat)
    requires v < 256 * p
    ensures v / 256 < p && v == v / 256 * 256 + v % 256
  {}

  lemma BigEndianSnoc(b: Bytes, x: bv8)
    ensures BigEndian(b + [x]) == BigEndian(b) * 256 + x as int
  {
    assert (b + [x])[..|b|] == b;
  }

  lemma BytesUnfold(v: nat, n: nat)
    requires n > 0
    ensures BytesOf(v, n) == BytesOf(v / 256, n - 1) + [ByteOf(v % 256)]
  {}

  lemma {:induction false} BytesRoundTrip(v: nat, n: nat)
    requires v < Power(256, n)
    ensures BigEndian(BytesOf(v, n)) == v
  {
    if n == 0 {
      assert Power(256, 0) == 1;
    } else {
      hide Power, BytesOf, BigEndian;
      PowerUnfolds(256, n);
      ByteLeft(v, Power(256, n - 1));
      BytesRoundTrip(v / 256, n - 1);
      BytesUnfold(v, n);
      BigEndianSnoc(BytesOf(v / 256, n - 1), ByteOf(v % 256));
    }
  }

  function DigitValue(c: char): nat
    requires '0' <= c <= '9'
  {
    (c - '0') as nat
  }

  /** The number a string of decimal digits stands for. */
  function Number(s: string): nat
    requires AllDigits(s)
  {
    if s == "" then 0 else Number(s[..|s| - 1]) * 10 + DigitValue(s[|s| - 1])
  }

  /** A number printed with at least `width` digits. */
  function PadZero(s: string, width: nat): string
    decreases width - |s|
  {
    if |s| >= width then s else PadZero("0" + s, width)
  }

  lemma {:induction false} DecimalNumber(n: nat)
    ensures Number(DecimalNat(n)) == n
  {
    if n >= 10 {
      DecimalNumber(n / 10);
      assert DecimalNat(n)[..|DecimalNat(n)| - 1] == DecimalNat(n / 10);
    } else {
      assert DecimalNat(n)[..0] == "";
    }
  }

  lemma {:induction false} DecimalLength(n: nat, width: nat)
    requires width > 0 && n < Power(10, width)
    ensures |DecimalNat(n)| <= width
  {
    if n >= 10 {
      assert width > 1 && n / 10 < Power(10, width - 1);
      DecimalLength(n / 10, width - 1);
    }
  }

  lemma {:induction false} LeadingZero(s: string)
    requires AllDigits(s)
    ensures AllDigits("0" + s) && Number("0" + s) == Number(s)
  {
    var z := "0" + s;
    if s != "" {
      LeadingZero(s[..|s| - 1]);
      assert z[..|z| - 1] == "0" + s[..|s| - 1];
    } else {
      assert z[..0] == "";
    }
  }

  lemma {:induction false} Padded(s: string, width: nat)
    requires AllDigits(s) && |s| <= width
    ensures |PadZero(s, width)| == width && AllDigits(PadZero(s, width))
    ensures Number(PadZero(s, width)) == Number(s)
    decreases width - |s|
  {
    if |s| < width {
      LeadingZero(s);
      Padded("0" + s, width);
    }
  }

  lemma NumberUnfolds(s: string)
    requires AllDigits(s) && s != ""
    ensures AllDigits(s[..|s| - 1]) && '0' <= s[|s| - 1] <= '9' && 0 <= DigitValue(s[|s| - 1]) < 10
    ensures Number(s) == Number(s[..|s| - 1]) * 10 + DigitValue(s[|s| - 1])
  {}

  lemma SameDigit(c: char, d: char)
    requires '0' <= c <= '9' && '0' <= d <= '9' && DigitValue(c) == DigitValue(d)
    ensures c == d
  {}

  lemma SameQuotient(x: nat, c: nat, y: nat, d: nat)
    requires c < 10 && d < 10 && x * 10 + c == y * 10 + d
    ensures x == y && c == d
  {}

  /** Strings of digits of one length are told apart by their numbers. */
  lemma {:induction false} SameNumber(a: string, b: string)
    requires AllDigits(a) && AllDigits(b) && |a| == |b| && Number(a) == Number(b)
    ensures a == b
    decreases |a|
  {
    if a == "" {
    } else {
      hide Number, AllDigits, DigitValue;
      var i := |a| - 1;
      NumberUnfolds(a);
      NumberUnfolds(b);
      SameQuotient(Number(a[..i]), DigitValue(a[i]), Number(b[..i]), DigitValue(b[i]));
      SameDigit(a[i], b[i]);
      SameNumber(a[..i], b[..i]);
      assert a == a[..i] + [a[i]] && b == b[..i] + [b[i]];
    }
  }

  // ---------------------------------------------------------------- the code of a counter

  /** A signed 64-bit counter, read as unsigned. */
  function Unsigned(counter: int): nat {
    counter % TWO_TO_64
  }

  /** Dynamic truncation: the low nibble of the last byte says which four bytes to read, big-endian
      and without the top bit. */
  function Truncated(sum: Bytes): (v: nat)
    requires |sum| == 20
    ensures v < 0x8000_0000
  {
    var offset := sum[19] as int % 16;
    BigEndian(sum[offset..offset + 4]) % 0x8000_0000
  }

  function CodeAt(hmac: (Bytes, Bytes) -> Bytes, key: Bytes, counter: int): string
    requires |hmac(key, BytesOf(Unsigned(counter), 8))| == 20
  {
    PadZero(DecimalNat(Truncated(hmac(key, BytesOf(Unsigned(counter), 8))) % MILLION), TOTP_DIGITS)
  }

  lemma BigEndianOfFour(s: Bytes)
    requires |s| == 4
    ensures BigEndian(s) == s[0] as int * 0x100_0000 + s[1] as int * 0x1_0000 + s[2] as int * 0x100 + s[3] as int
  {
    assert s[..3][..2][..1][..0] == [];
    assert BigEndian(s[..3][..2][..1]) == s[0] as int;
    assert BigEndian(s[..3][..2]) == s[0] as int * 256 + s[1] as int;
    assert BigEndian(s[..3]) == (s[0] as int * 256 + s[1] as int) * 256 + s[2] as int;
  }

  /** Fills the buffer from its last byte on. */
  method PutUint64(buf: array<bv8>, v: nat)
    requires buf.Length == 8
    modifies buf
    ensures buf[..] == BytesOf(v, 8)
  {
    var rest, i := v, 8;
    while i > 0
      invariant 0 <= i <= 8
      invariant BytesOf(v, 8) == BytesOf(rest, i) + buf[i..]
    {
      i := i - 1;
      ghost var tail := buf[i + 1..];
      ghost var head := BytesOf(rest / 256, i);
      assert BytesOf(rest, i + 1) == head + [ByteOf(rest % 256)];
      buf[i] := ByteOf(rest % 256);
      rest := rest / 256;
      assert buf[i..] == [buf[i]] + tail;
      assert (head + [buf[i]]) + tail == head + buf[i..];
    }
    assert buf[0..] == buf[..];
  }

  lemma TruncatedAt(sum: Bytes, offset: int)
    requires |sum| == 20 && offset == sum[19] as int % 16
    ensures Truncated(sum) == BigEndian(sum[offset..offset + 4]) % 0x8000_0000
  {}

  lemma WordAt(sum: Bytes, offset: nat)
    requires offset + 4 <= |sum|
    ensures Assembled(sum[offset], sum[offset + 1], sum[offset + 2], sum[offset + 3]) as int
            == BigEndian(sum[offset..offset + 4]) % 0x8000_0000
  {
    hide Assembled, BigEndian;
    var four := sum[offset..offset + 4];
    AssembledWord(four[0], four[1], four[2], four[3]);
    BigEndianOfFour(four);
  }

  /** The bit twiddling reads the same number; its indices are in bounds by their types. */
  lemma TruncationBits(sum: Bytes, offset: int)
    requires |sum| == 20 && offset == (sum[19] & 0x0f) as int
    ensures offset + 3 < |sum|
    ensures Assembled(sum[offset], sum[offset + 1], sum[offset + 2], sum[offset + 3]) as int == Truncated(sum)
  {
    hide Assembled, BigEndian, Truncated;
    LowNibble(sum[19]);
    TruncatedAt(sum, offset);
    WordAt(sum, offset);
  }

  method TotpAt(hmac: (Bytes, Bytes) -> Bytes, key: Bytes, counter: int) returns (code: string)
    requires Sha1Sized(hmac)
    ensures code == CodeAt(hmac, key, counter)
  {
    hide Truncated, DecimalNat, PadZero, Assembled;
    var buf := new bv8[8];
    PutUint64(buf, Unsigned(counter));
    var sum := hmac(key, buf[..]);
    var offset := (sum[|sum| - 1] & 0x0f) as int;
    TruncationBits(sum, offset);
    var value := Assembled(sum[offset], sum[offset + 1], sum[offset + 2], sum[offset + 3]);
    var mod := 1;
    for i := 0 to TOTP_DIGITS
      invariant mod == Power(10, i)
    {
      mod := mod * 10;
    }
    assert Power(10, TOTP_DIGITS) == MILLION;
    code := PadZero(DecimalNat(value as int % mod), TOTP_DIGITS);
  }

  /** A code is exactly six digits, and as a number the truncated hash modulo a million. */
  lemma CodeIsSixDigits(hmac: (Bytes, Bytes) -> Bytes, key: Bytes, counter: int)
    requires Sha1Sized(hmac)
    ensures var code := CodeAt(hmac, key, counter);
      && |code| == 6 && AllDigits(code)
      && Number(code) == Truncated(hmac(key, BytesOf(Unsigned(counter), 8))) % 1_000_000
  {
    var n := Truncated(hmac(key, BytesOf(Unsigned(counter), 8))) % MILLION;
    assert Power(10, 6) == MILLION;
    DecimalLength(n, 6);
    DecimalNumber(n);
    Padded(DecimalNat(n), 6);
  }

  /** The message hashed is the counter itself, modulo 2^64. */
  lemma CounterMessage(counter: int)
    ensures BigEndian(BytesOf(Unsigned(counter), 8)) == counter % 0x1_0000_0000_0000_0000
  {
    assert Power(256, 8) == TWO_TO_64;
    BytesRoundTrip(Unsigned(counter), 8);
  }

  // ---------------------------------------------------------------- verification

  /** The digits of what the user typed. */
  function Cleaned(code: string): (s: string)
    ensures AllDigits(s)
  {
    if code == "" then ""
    else (if '0' <= code[0] <= '9' then [code[0]] else "") + Cleaned(code[1..])
  }

  lemma {:induction false} CleanedAppend(a: string, b: string)
    ensures Cleaned(a + b) == Cleaned(a) + Cleaned(b)
  {
    if a == "" {
      assert a + b == b;
    } else {
      assert (a + b)[1..] == a[1..] + b;
      CleanedAppend(a[1..], b);
    }
  }

  lemma {:induction false} CleanedNothing(junk: string)
    requires forall i | 0 <= i < |junk| :: !('0' <= junk[i] <= '9')
    ensures Cleaned(junk) == ""
  {
    if junk == "" {
    } else {
      CleanedNothing(junk[1..]);
    }
  }

  lemma {:induction false} CleanedDigits(s: string)
    requires AllDigits(s)
    ensures Cleaned(s) == s
  {
    if s == "" {
    } else {
      CleanedDigits(s[1..]);
    }
  }

  /** The step a Unix time falls in; the division truncates toward zero. */
  function StepOf(unix: int): int {
    if unix >= 0 then unix / TOTP_STEP else -((-unix) / TOTP_STEP)
  }

  /** Steps are thirty seconds long, and step zero is the one around the epoch. */
  lemma StepsAreHalfMinutes(unix: int)
    ensures unix >= 0 ==> StepOf(unix) * 30 <= unix < (StepOf(unix) + 1) * 30
    ensures unix < 0 ==> (StepOf(unix) - 1) * 30 < unix <= StepOf(unix) * 30
  {}

  predicate Accepts(hmac: (Bytes, Bytes) -> Bytes, key: Option<Bytes>, code: string, unix: int)
    requires Sha1Sized(hmac)
  {
    && |Cleaned(code)| == TOTP_DIGITS
    && key.Some?
    && exists step | StepOf(unix) - TOTP_DRIFT_STEPS <= step <= StepOf(unix) + TOTP_DRIFT_STEPS ::
         CodeAt(hmac, key.value, step) == Cleaned(code)
  }

  method Clean(code: string) returns (cleaned: string)
    ensures cleaned == Cleaned(code)
  {
    cleaned := "";
    for i := 0 to |code|
      invariant cleaned == Cleaned(code[..i])
    {
      assert code[..i + 1] == code[..i] + [code[i]];
      CleanedAppend(code[..i], [code[i]]);
      if '0' <= code[i] <= '9' {
        cleaned := cleaned + [code[i]];
      }
    }
    assert code[..|code|] == code;
  }

  /** `decode` is base32 without padding on the upper-cased secret. */
  method VerifyTOTP(hmac: (Bytes, Bytes) -> Bytes, decode: string -> Option<Bytes>, secret: string, code: string,
                    unix: int)
    returns (ok: bool)
    requires Sha1Sized(hmac)
    ensures ok <==> Accepts(hmac, decode(secret), code, unix)
  {
    hide CodeAt, Cleaned, StepOf;
    var cleaned := Clean(code);
    if |cleaned| != TOTP_DIGITS {
      return false;
    }
    var key := decode(secret);
    if key.None? {
      return false;
    }
    var now := StepOf(unix);
    var offset := -TOTP_DRIFT_STEPS;
    while offset <= TOTP_DRIFT_STEPS
      invariant -TOTP_DRIFT_STEPS <= offset <= TOTP_DRIFT_STEPS + 1
      invariant forall step | now - TOTP_DRIFT_STEPS <= step < now + offset :: CodeAt(hmac, key.value, step) != cleaned
    {
      var expected := TotpAt(hmac, key.value, now + offset);
      if expected == cleaned {
        return true;
      }
      offset := offset + 1;
    }
    return false;
  }

  /** What is accepted: exactly the digit strings whose number is the truncated hash of the previous,
      the current or the next step, modulo a million. */
  lemma AcceptedNumbers(hmac: (Bytes, Bytes) -> Bytes, key: Bytes, code: string, unix: int)
    requires Sha1Sized(hmac)
    ensures Accepts(hmac, Some(key), code, unix) <==>
      && |Cleaned(code)| == 6
      && exists step | StepOf(unix) - 1 <= step <= StepOf(unix) + 1 ::
           Number(Cleaned(code)) == Truncated(hmac(key, BytesOf(Unsigned(step), 8))) % 1_000_000
  {
    hide Truncated, Unsigned, BytesOf, Cleaned, CodeAt, Number;
    forall step | |Cleaned(code)| == 6
      ensures CodeAt(hmac, key, step) == Cleaned(code)
              <==> Number(Cleaned(code)) == Truncated(hmac(key, BytesOf(Unsigned(step), 8))) % MILLION
    {
      CodeIsSixDigits(hmac, key, step);
      if Number(Cleaned(code)) == Number(CodeAt(hmac, key, step)) {
        SameNumber(Cleaned(code), CodeAt(hmac, key, step));
      }
    }
  }

  /** A code made at one second is accepted at any second at most thirty away. */
  lemma CodesLiveThirtySeconds(hmac: (Bytes, Bytes) -> Bytes, key: Bytes, a: int, b: int)
    requires Sha1Sized(hmac) && -30 <= a - b <= 30
    ensures Accepts(hmac, Some(key), CodeAt(hmac, key, StepOf(a)), b)
  {
    assert StepOf(b) - 1 <= StepOf(a) <= StepOf(b) + 1;
    CodeIsSixDigits(hmac, key, StepOf(a));
    CleanedDigits(CodeAt(hmac, key, StepOf(a)));
  }

  /** The window never reaches a full minute: from there on only a collision is accepted. */
  lemma WindowIsUnderAMinute(a: int, b: int)
    requires 0 <= a && 0 <= b && -1 <= StepOf(a) - StepOf(b) <= 1
    ensures -60 < a - b < 60
  {}

  /** Whitespace, dashes or anything else that is not a digit may be typed anywhere. */
  lemma JunkChangesNothing(hmac: (Bytes, Bytes) -> Bytes, key: Option<Bytes>, a: string, junk: string, b: string,
                           unix: int)
    requires Sha1Sized(hmac) && forall i | 0 <= i < |junk| :: !('0' <= junk[i] <= '9')
    ensures Accepts(hmac, key, a + junk + b, unix) <==> Accepts(hmac, key, a + b, unix)
  {
    hide CodeAt, StepOf;
    CleanedAppend(a + junk, b);
    CleanedAppend(a, junk);
    CleanedAppend(a, b);
    CleanedNothing(junk);
  }
}
