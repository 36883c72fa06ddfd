/**
 Webhook signatures: the signed bytes and the verdict. The keyed hash (section 2 of RFC 2104)
 is a parameter about which nothing is assumed except that its hexadecimal text is ASCII.
 */
module Signature {
  newtype Byte = x: int | 0 <= x < 256
  type Bytes = seq<Byte>

  /** str(n) for a natural number. */
  function Decimal(n: nat): (s: string)
    ensures s != ""
    ensures forall i :: 0 <= i < |s| ==> '0' <= s[i] <= '9'
    ensures n > 0 ==> s[0] != '0'
  {
    if n < 10 then ['0' + n as char]
    else Decimal(n / 10) + ['0' + (n % 10) as char]
  }

  /** str(n), with a sign for negative numbers. */
  function Text(n: int): (s: string)
    ensures s != ""
    ensures forall i :: 0 <= i < |s| ==> '0' <= s[i] <= '9' || (i == 0 && s[i] == '-')
  {
    if n < 0 then "-" + Decimal(-n) else Decimal(n)
  }

  function Encode(s: string): (b: Bytes)
    requires forall i :: 0 <= i < |s| ==> s[i] < 128 as char
    ensures |b| == |s|
    ensures forall i :: 0 <= i < |s| ==> b[i] == s[i] as int as Byte
  {
    seq(|s|, i requires 0 <= i < |s| => s[i] as int as Byte)
  }

  /** f"t={timestamp}.".encode("utf-8") + payload. */
  function SignedBytes(timestamp: int, payload: Bytes): Bytes {
    Encode("t=" + Text(timestamp) + ".") + payload
  }

  type Hmac = (string, Bytes) -> string

  function ComputeSignature(hmac: Hmac, secret: string, timestamp: int, payload: Bytes): string {
    "v1=" + hmac(secret, SignedBytes(timestamp, payload))
  }

  datatype Verdict = Valid | OutsideWindow | Mismatch | TypeError

  predicate Ascii(s: string) {
    forall i :: 0 <= i < |s| ==> s[i] < 128 as char
  }

  function Abs(n: int): nat { if n < 0 then -n else n }

  /** verify_webhook_signature; compare_digest raises TypeError on text outside ASCII. */
  function VerifySignature(hmac: Hmac, secret: string, header: string, timestamp: int, payload: Bytes,
                           tolerance: int, now: int): Verdict {
    if Abs(now - timestamp) > tolerance then OutsideWindow
    else
      var expected := ComputeSignature(hmac, secret, timestamp, payload);
      if !Ascii(expected) || !Ascii(header) then TypeError
      else if expected != header then Mismatch
      else Valid
  }

  // ---------------------------------------------------------------- the encoding is injective

  lemma {:induction false} DecimalInjective(m: nat, n: nat)
    requires Decimal(m) == Decimal(n)
    ensures m == n
  {
    if m >= 10 && n >= 10 {
      var a, b := Decimal(m / 10), Decimal(n / 10);
      assert Decimal(m)[..|a|] == a && Decimal(n)[..|b|] == b;
      assert Decimal(m)[|a|] == '0' + (m % 10) as char && Decimal(n)[|b|] == '0' + (n % 10) as char;
      DecimalInjective(m / 10, n / 10);
      DigitInjective(m % 10, n % 10);
    } else if m < 10 && n < 10 {
      assert Decimal(m)[0] == Decimal(n)[0];
      DigitInjective(m, n);
    }
  }

  lemma DigitInjective(a: nat, b: nat)
    requires a < 10 && b < 10 && '0' + a as char == '0' + b as char
    ensures a == b
  {
    assert ('0' + a as char) as int == 48 + a && ('0' + b as char) as int == 48 + b;
  }

  lemma TextInjective(m: int, n: int)
    requires Text(m) == Text(n)
    ensures m == n
  {
    if m < 0 && n < 0 {
      assert Text(m)[1..] == Decimal(-m) && Text(n)[1..] == Decimal(-n);
      DecimalInjective(-m, -n);
    } else if m >= 0 && n >= 0 {
      DecimalInjective(m, n);
    }
  }

  /** Two texts without a full stop, each followed by one, agree if the results agree. */
  lemma {:induction false} SplitAtStop(a: string, b: string, x: Bytes, y: Bytes)
    requires Ascii(a) && Ascii(b) && '.' !in a && '.' !in b
    requires Encode(a + ".") + x == Encode(b + ".") + y
    ensures a == b && x == y
  {
    var u, v := Encode(a + ".") + x, Encode(b + ".") + y;
    var n := if |a| < |b| then |a| else |b|;
    forall i | 0 <= i <= n ensures (a + ".")[i] == (b + ".")[i] {
      assert u[i] == (a + ".")[i] as int as Byte && v[i] == (b + ".")[i] as int as Byte;
    }
    assert |a| == |b| by { assert (a + ".")[n] == (b + ".")[n]; }
    assert forall i :: 0 <= i < |a| ==> a[i] == (a + ".")[i] && b[i] == (b + ".")[i];
    assert u[|a| + 1..] == x && v[|b| + 1..] == y;
  }

  /** Different timestamps or payloads are never signed as the same bytes. */
  lemma SignedBytesInjective(t: int, t': int, payload: Bytes, payload': Bytes)
    requires SignedBytes(t, payload) == SignedBytes(t', payload')
    ensures t == t' && payload == payload'
  {
    SplitAtStop("t=" + Text(t), "t=" + Text(t'), payload, payload');
    assert ("t=" + Text(t))[2..] == Text(t) && ("t=" + Text(t'))[2..] == Text(t');
    TextInjective(t, t');
  }

  // ---------------------------------------------------------------- the format

  /** The number that decimal digits stand for. */
  function Value(digits: string): int {
    if digits == "" then 0
    else Value(digits[..|digits| - 1]) * 10 + (digits[|digits| - 1] as int - '0' as int)
  }

  lemma {:induction false} DecimalValue(n: nat)
    ensures Value(Decimal(n)) == n
  {
    if n >= 10 {
      var d := Decimal(n);
      assert d[..|d| - 1] == Decimal(n / 10);
      assert ('0' + (n % 10) as char) as int == 48 + n % 10;
      DecimalValue(n / 10);
    } else {
      assert ('0' + n as char) as int == 48 + n;
      assert Decimal(n)[..0] == "";
    }
  }

  /** The signed bytes are "t=", the timestamp in decimal and a full stop, in ASCII, then the payload. */
  lemma SignedBytesAre(timestamp: int, payload: Bytes) returns (text: string, digits: string)
    ensures text == "t=" + (if timestamp < 0 then "-" else "") + digits + "."
    ensures digits != "" && (forall i :: 0 <= i < |digits| ==> '0' <= digits[i] <= '9')
    ensures (|digits| > 1 ==> digits[0] != '0') && Value(digits) == if timestamp < 0 then -timestamp else timestamp
    ensures var bytes := SignedBytes(timestamp, payload);
            && |bytes| == |text| + |payload| && bytes[|text|..] == payload
            && forall i :: 0 <= i < |text| ==> bytes[i] as int == text[i] as int
  {
    digits := Decimal(Abs(timestamp));
    text := "t=" + Text(timestamp) + ".";
    DecimalValue(Abs(timestamp));
    assert "t=" + "" == "t=";
    if timestamp < 0 { assert "t=" + ("-" + digits) == "t=" + "-" + digits; }
  }

  // ---------------------------------------------------------------- verification

  /** The verdict, from the clock, the header and the hash. */
  lemma VerdictMeans(hmac: Hmac, secret: string, header: string, timestamp: int, payload: Bytes,
                     tolerance: int, now: int)
    ensures var verdict := VerifySignature(hmac, secret, header, timestamp, payload, tolerance, now);
            var within := -tolerance <= now - timestamp <= tolerance;
            var expected := "v1=" + hmac(secret, SignedBytes(timestamp, payload));
            && (verdict == OutsideWindow <==> !within)
            && (verdict == Valid <==> within && Ascii(header) && header == expected)
            && (verdict == Mismatch <==> within && Ascii(header) && Ascii(expected) && header != expected)
  {
  }

  /** What compute produced is accepted exactly within the tolerance. */
  lemma AcceptsOwnSignatureIff(hmac: Hmac, secret: string, timestamp: int, payload: Bytes, tolerance: int, now: int)
    requires Ascii(hmac(secret, SignedBytes(timestamp, payload)))
    ensures var header := ComputeSignature(hmac, secret, timestamp, payload);
            var verdict := VerifySignature(hmac, secret, header, timestamp, payload, tolerance, now);
            verdict == Valid <==> -tolerance <= now - timestamp <= tolerance
  {
    assert Ascii(ComputeSignature(hmac, secret, timestamp, payload));
  }

  /**
   A header made for one timestamp and payload is accepted for another only if the keyed hash
   collides on two different byte strings.
   */
  lemma ForeignHeaderNeedsCollision(hmac: Hmac, secret: string, t: int, payload: Bytes, t': int, payload': Bytes,
                                    tolerance: int, now: int)
    requires t != t' || payload != payload'
    requires var header := ComputeSignature(hmac, secret, t, payload);
             VerifySignature(hmac, secret, header, t', payload', tolerance, now) == Valid
    ensures SignedBytes(t, payload) != SignedBytes(t', payload')
    ensures hmac(secret, SignedBytes(t, payload)) == hmac(secret, SignedBytes(t', payload'))
  {
    if SignedBytes(t, payload) == SignedBytes(t', payload') { SignedBytesInjective(t, t', payload, payload'); }
    var a, b := ComputeSignature(hmac, secret, t, payload), ComputeSignature(hmac, secret, t', payload');
    assert a[3..] == hmac(secret, SignedBytes(t, payload)) && b[3..] == hmac(secret, SignedBytes(t', payload'));
  }
}
