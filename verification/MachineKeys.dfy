/** Machine keys: the base-62 text of 24 random bytes, and the length the connect request
 *  asks of it. */
module MachineKeys {
  type Byte = b: int | 0 <= b < 256

  const KEY_BYTES: nat := 24
  const KEY_PREFIX: string := "ck_"
  const NUMERALS: string := "0123456789"
  const CAPITALS: string := "ABCDEFGHIJKLMNOPQRSTUVWXYZ"
  const SMALL: string := "abcdefghijklmnopqrstuvwxyz"
  const ALPHABET: string := NUMERALS + CAPITALS + SMALL

  // --------------------------------------------------------- encoding and decoding

  // The value of the bytes, most significant first.
  function Value(bytes: seq<Byte>): nat {
    if bytes == [] then 0 else Value(bytes[..|bytes| - 1]) * 256 + bytes[|bytes| - 1]
  }

  function Digits(n: nat): string {
    if n == 0 then "" else Digits(n / 62) + [ALPHABET[n % 62]]
  }

  function Encode(bytes: seq<Byte>): string {
    if Value(bytes) == 0 then "0" else Digits(Value(bytes))
  }

  // What one character stands for; 0 for a character outside the alphabet.
  function DigitOf(c: char): nat {
    if '0' <= c <= '9' then c as int - '0' as int
    else if 'A' <= c <= 'Z' then c as int - 'A' as int + 10
    else if 'a' <= c <= 'z' then c as int - 'a' as int + 36
    else 0
  }

  function Decode(text: string): nat {
    if text == "" then 0 else Decode(text[..|text| - 1]) * 62 + DigitOf(text[|text| - 1])
  }

  predicate Alphanumeric(c: char) { '0' <= c <= '9' || 'A' <= c <= 'Z' || 'a' <= c <= 'z' }

  // The pattern the connect request checks a key against.
  predicate ConnectAccepts(apiKey: string) {
    && KEY_PREFIX <= apiKey
    && |apiKey| >= |KEY_PREFIX| + 32
    && forall i :: |KEY_PREFIX| <= i < |apiKey| ==> Alphanumeric(apiKey[i])
  }

  // ---------------------------------------------------------------- the proofs

  lemma NumeralAt(d: nat)
    requires d < 10
    ensures NUMERALS[d] as int == d + '0' as int
  {
  }

  lemma CapitalAt(d: nat)
    requires d < 26
    ensures CAPITALS[d] as int == d + 'A' as int
  {
  }

  lemma SmallAt(d: nat)
    requires d < 26
    ensures SMALL[d] as int == d + 'a' as int
  {
  }

  lemma AlphabetAt(d: nat)
    requires d < 62
    ensures ALPHABET[d] == if d < 10 then NUMERALS[d] else if d < 36 then CAPITALS[d - 10] else SMALL[d - 36]
  {
  }

  lemma AlphabetDigits(d: nat)
    requires d < 62
    ensures DigitOf(ALPHABET[d]) == d && Alphanumeric(ALPHABET[d])
  {
    AlphabetAt(d);
    if d < 10 { NumeralAt(d); }
    else if d < 36 { CapitalAt(d - 10); }
    else { SmallAt(d - 36); }
  }

  lemma {:induction false} DecodeDigits(n: nat)
    ensures Decode(Digits(n)) == n
  {
    if n != 0 {
      DecodeDigits(n / 62);
      AlphabetDigits(n % 62);
      var front := Digits(n / 62);
      assert (front + [ALPHABET[n % 62]])[..|front|] == front;
    }
  }

  lemma {:induction false} DigitsAreAlphanumeric(n: nat)
    ensures forall i :: 0 <= i < |Digits(n)| ==> Alphanumeric(Digits(n)[i])
  {
    if n != 0 {
      DigitsAreAlphanumeric(n / 62);
      AlphabetDigits(n % 62);
    }
  }

  function Pow(base: nat, k: nat): nat { if k == 0 then 1 else base * Pow(base, k - 1) }

  lemma {:induction false} PowIsPositive(base: nat, k: nat)
    requires base > 0
    ensures Pow(base, k) > 0
  {
    if k != 0 { PowIsPositive(base, k - 1); }
  }

  lemma {:induction false} PowOfSum(base: nat, j: nat, k: nat)
    ensures Pow(base, j + k) == Pow(base, j) * Pow(base, k)
    decreases j
  {
    if j != 0 {
      PowOfSum(base, j - 1, k);
      assert base * (Pow(base, j - 1) * Pow(base, k)) == base * Pow(base, j - 1) * Pow(base, k);
    }
  }

  lemma {:induction false} DigitsLength(n: nat, k: nat)
    ensures |Digits(n)| <= k <==> n < Pow(62, k)
    decreases k
  {
    PowIsPositive(62, k);
    if n != 0 {
      assert |Digits(n)| == |Digits(n / 62)| + 1;
      if k != 0 {
        DigitsLength(n / 62, k - 1);
        assert n / 62 < Pow(62, k - 1) <==> n < 62 * Pow(62, k - 1);
      }
    }
  }

  lemma {:induction false} ValueIsBounded(bytes: seq<Byte>)
    ensures Value(bytes) < Pow(256, |bytes|)
  {
    if bytes != [] { ValueIsBounded(bytes[..|bytes| - 1]); }
  }

  lemma {:induction false} ValueIsInjective(a: seq<Byte>, b: seq<Byte>)
    requires |a| == |b| && Value(a) == Value(b)
    ensures a == b
  {
    if a != [] {
      ValueIsInjective(a[..|a| - 1], b[..|b| - 1]);
      assert a == a[..|a| - 1] + [a[|a| - 1]];
    }
  }

  lemma TwentyFourBytesFit()
    ensures Pow(62, 31) < Pow(256, 24) < Pow(62, 33)
    ensures 171 * Pow(62, 31) < Pow(256, 24) < 172 * Pow(62, 31)
  {
    assert Pow(62, 1) == 62 && Pow(62, 2) == 3844;
    PowOfSum(62, 2, 2);
    PowOfSum(62, 4, 4);
    assert Pow(62, 8) == 218340105584896;
    PowOfSum(62, 8, 8);
    assert Pow(62, 16) == 47672401706823533450263330816;
    PowOfSum(62, 1, 2);
    PowOfSum(62, 3, 4);
    PowOfSum(62, 7, 8);
    PowOfSum(62, 15, 16);
    assert Pow(62, 31) == 36655772330592763634761960703670067260691176347075084288;
    PowOfSum(62, 2, 31);
    assert Pow(256, 1) == 256 && Pow(256, 2) == 65536;
    PowOfSum(256, 2, 2);
    PowOfSum(256, 4, 4);
    PowOfSum(256, 8, 8);
    PowOfSum(256, 8, 16);
    assert Pow(256, 24) == 6277101735386680763835789423207666416102355444464034512896;
  }

  // ------------------------------------------------------------------ theorems

  // Decoding the text gives the value of the bytes back.
  lemma DecodingGivesTheValue(bytes: seq<Byte>)
    ensures Decode(Encode(bytes)) == Value(bytes)
  {
    DecodeDigits(Value(bytes));
    assert Decode("0") == 0 by { assert "0"[..0] == ""; }
  }

  // Two inputs of the same length give the same text only if they are the same.
  lemma DistinctBytesGiveDistinctKeys(a: seq<Byte>, b: seq<Byte>)
    requires |a| == |b|
    ensures Encode(a) == Encode(b) <==> a == b
  {
    if Encode(a) == Encode(b) {
      DecodingGivesTheValue(a);
      DecodingGivesTheValue(b);
      ValueIsInjective(a, b);
    }
  }

  /** The text of 24 bytes has at most 33 characters, and at least the 32 that the connect
   *  request asks for exactly when their value is at least 62^31: a key is issued that the
   *  bridge cannot connect with exactly when it is smaller. */
  lemma KeysAreAcceptedExactlyWhenLarge(bytes: seq<Byte>)
    requires |bytes| == KEY_BYTES
    ensures 1 <= |Encode(bytes)| <= 33
    ensures ConnectAccepts(KEY_PREFIX + Encode(bytes)) <==> Value(bytes) >= Pow(62, 31)
  {
    var n := Value(bytes);
    ValueIsBounded(bytes);
    TwentyFourBytesFit();
    DigitsLength(n, 33);
    DigitsLength(n, 31);
    DigitsLength(n, 0);
    DigitsAreAlphanumeric(n);
  }

  // ------------------------------------------------------------------ the loops

  lemma Regroup(front: string, c: char, out: string)
    ensures front + [c] + out == front + ([c] + out)
  {
  }

  method Base62(bytes: seq<Byte>) returns (out: string)
    ensures out == Encode(bytes)
  {
    var n: nat := 0;
    for i := 0 to |bytes|
      invariant n == Value(bytes[..i])
    {
      assert bytes[..i + 1][..i] == bytes[..i];
      n := n * 256 + bytes[i];
    }
    assert bytes[..|bytes|] == bytes;
    out := "";
    while n > 0
      invariant Digits(Value(bytes)) == Digits(n) + out
    {
      Regroup(Digits(n / 62), ALPHABET[n % 62], out);
      out := [ALPHABET[n % 62]] + out;
      n := n / 62;
    }
    if out == "" { out := "0"; }
  }
}
