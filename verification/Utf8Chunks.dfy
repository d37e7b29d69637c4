/** The readers decode each chunk of bytes on its own.  What that does to a UTF-8 stream whose
 *  chunks are cut anywhere, with the replacement rule of the WHATWG Encoding Standard. */
module Utf8Chunks {
  import opened LineReaders

  type Byte = b: int | 0 <= b < 256

  const REPLACEMENT: char := '\U{FFFD}'

  // ------------------------------------------------------------ encoding and decoding

  function EncodeChar(c: char): seq<Byte> {
    var n := c as int;
    if n < 0x80 then [n]
    else if n < 0x800 then [0xC0 + n / 64, 0x80 + n % 64]
    else if n < 0x10000 then [0xE0 + n / 4096, 0x80 + n / 64 % 64, 0x80 + n % 64]
    else [0xF0 + n / 262144, 0x80 + n / 4096 % 64, 0x80 + n / 64 % 64, 0x80 + n % 64]
  }

  function Encode(text: string): seq<Byte> {
    if text == "" then [] else EncodeChar(text[0]) + Encode(text[1..])
  }

  predicate Continues(b: Byte) { 0x80 <= b < 0xC0 }

  // How many continuation bytes a first byte asks for; none for a byte that cannot be first.
  function Needed(b: Byte): nat {
    if 0xC2 <= b <= 0xDF then 1 else if 0xE0 <= b <= 0xEF then 2 else if 0xF0 <= b <= 0xF4 then 3 else 0
  }

  // The range of the byte after a first byte: no overlong forms, surrogates, or large values.
  predicate SecondFits(first: Byte, b: Byte) {
    && Continues(b)
    && (first == 0xE0 ==> b >= 0xA0)
    && (first == 0xED ==> b < 0xA0)
    && (first == 0xF0 ==> b >= 0x90)
    && (first == 0xF4 ==> b < 0x90)
  }

  // How many of the needed continuation bytes are there.
  function Present(bytes: seq<Byte>): (k: nat)
    requires bytes != []
    ensures k <= Needed(bytes[0]) && k < |bytes|
    ensures forall i :: 1 <= i <= k ==> Continues(bytes[i])
    ensures k >= 1 ==> SecondFits(bytes[0], bytes[1])
  {
    var n := Needed(bytes[0]);
    if n < 1 || |bytes| < 2 || !SecondFits(bytes[0], bytes[1]) then 0
    else if n < 2 || |bytes| < 3 || !Continues(bytes[2]) then 1
    else if n < 3 || |bytes| < 4 || !Continues(bytes[3]) then 2
    else 3
  }

  function Scalar2(b: int, c: int): int { (b - 0xC0) * 64 + (c - 0x80) }

  function Scalar3(b: int, c: int, d: int): int { (b - 0xE0) * 4096 + (c - 0x80) * 64 + (d - 0x80) }

  function Scalar4(b: int, c: int, d: int, e: int): int {
    (b - 0xF0) * 262144 + (c - 0x80) * 4096 + (d - 0x80) * 64 + (e - 0x80)
  }

  // The first character of some bytes, and the number of bytes it takes up.
  function DecodeOne(bytes: seq<Byte>): (char, nat)
    requires bytes != []
  {
    var b, n, k := bytes[0], Needed(bytes[0]), Present(bytes);
    if b < 0x80 then (b as char, 1)
    else if n == 0 || k < n then (REPLACEMENT, k + 1)
    else if n == 1 then (Scalar2(b, bytes[1]) as char, 2)
    else if n == 2 then (Scalar3(b, bytes[1], bytes[2]) as char, 3)
    else (Scalar4(b, bytes[1], bytes[2], bytes[3]) as char, 4)
  }

  function Decode(bytes: seq<Byte>): string {
    if bytes == [] then ""
    else
      var (c, used) := DecodeOne(bytes);
      [c] + Decode(bytes[used..])
  }

  // What the readers make of the chunks.
  function DecodeEach(chunks: seq<seq<Byte>>): seq<string> {
    seq(|chunks|, i requires 0 <= i < |chunks| => Decode(chunks[i]))
  }

  function Bytes(chunks: seq<seq<Byte>>): seq<Byte> {
    if chunks == [] then [] else Bytes(chunks[..|chunks| - 1]) + chunks[|chunks| - 1]
  }

  // The chunk does not begin inside a character.
  predicate StartsWell(chunk: seq<Byte>) { chunk == [] || !Continues(chunk[0]) }

  ghost predicate AllStartWell(chunks: seq<seq<Byte>>) {
    forall i :: 0 <= i < |chunks| ==> StartsWell(chunks[i])
  }

  // ------------------------------------------------ nothing is read that is not there

  lemma TwoAreEncoded(b: Byte, c: Byte)
    requires Needed(b) == 1 && Continues(c)
    ensures 0x80 <= Scalar2(b, c) < 0x800 && EncodeChar(Scalar2(b, c) as char) == [b, c]
  {
  }

  lemma ThreeAreEncoded(b: Byte, c: Byte, d: Byte)
    requires Needed(b) == 2 && SecondFits(b, c) && Continues(d)
    ensures var n := Scalar3(b, c, d);
      0x800 <= n < 0x10000 && !(0xD800 <= n < 0xE000) && EncodeChar(n as char) == [b, c, d]
  {
    var n := Scalar3(b, c, d);
    assert n / 64 == (b - 0xE0) * 64 + (c - 0x80) && n % 64 == d - 0x80;
  }

  lemma FourAreEncoded(b: Byte, c: Byte, d: Byte, e: Byte)
    requires Needed(b) == 3 && SecondFits(b, c) && Continues(d) && Continues(e)
    ensures var n := Scalar4(b, c, d, e);
      0x10000 <= n < 0x110000 && EncodeChar(n as char) == [b, c, d, e]
  {
    var n := Scalar4(b, c, d, e);
    assert n / 64 == (b - 0xF0) * 4096 + (c - 0x80) * 64 + (d - 0x80) && n % 64 == e - 0x80;
    assert n / 4096 == n / 64 / 64 == (b - 0xF0) * 64 + (c - 0x80);
  }

  /** Whatever the bytes, a character that the decoder puts out is the replacement character, or
   *  its encoding is what stood there. */
  lemma NothingIsInvented(bytes: seq<Byte>)
    requires bytes != []
    ensures var (c, used) := DecodeOne(bytes);
      1 <= used <= |bytes| && (c == REPLACEMENT || bytes[..used] == EncodeChar(c))
  {
    var b, n, k := bytes[0], Needed(bytes[0]), Present(bytes);
    if b >= 0x80 && n != 0 && k == n {
      if n == 1 { TwoAreEncoded(b, bytes[1]); }
      else if n == 2 { ThreeAreEncoded(b, bytes[1], bytes[2]); }
      else { FourAreEncoded(b, bytes[1], bytes[2], bytes[3]); }
    }
  }

  // -------------------------------------------------- whole characters come back whole

  lemma TwoBytes(n: nat)
    requires 0x80 <= n < 0x800
    ensures var b, c := 0xC0 + n / 64, 0x80 + n % 64;
      && Scalar2(b, c) == n && 0xC2 <= b <= 0xDF
  {
  }

  lemma ThreeBytes(n: nat)
    requires 0x800 <= n < 0x10000 && !(0xD800 <= n < 0xE000)
    ensures var b, c, d := 0xE0 + n / 4096, 0x80 + n / 64 % 64, 0x80 + n % 64;
      && Scalar3(b, c, d) == n && 0xE0 <= b <= 0xEF && (b == 0xE0 ==> c >= 0xA0) && (b == 0xED ==> c < 0xA0)
  {
  }

  lemma FourBytes(n: nat)
    requires 0x10000 <= n < 0x110000
    ensures var b, c, d, e := 0xF0 + n / 262144, 0x80 + n / 4096 % 64, 0x80 + n / 64 % 64, 0x80 + n % 64;
      && Scalar4(b, c, d, e) == n && 0xF0 <= b <= 0xF4 && (b == 0xF0 ==> c >= 0x90) && (b == 0xF4 ==> c < 0x90)
  {
    var m, p, q := n / 64, n / 4096, n / 262144;
    assert p == m / 64;
    assert q == p / 64;
    assert n == 64 * m + n % 64 && m == 64 * p + m % 64 && p == 64 * q + p % 64;
  }

  lemma DecodeEncodedChar(c: char, more: seq<Byte>)
    ensures DecodeOne(EncodeChar(c) + more) == (c, |EncodeChar(c)|)
  {
    var n := c as int;
    if 0x80 <= n < 0x800 { TwoBytes(n); }
    else if 0x800 <= n < 0x10000 { ThreeBytes(n); }
    else if 0x10000 <= n { FourBytes(n); }
  }

  /** The beginning of a character, cut off by the end of a chunk, becomes one replacement
   *  character, and so does each of the continuation bytes the next chunk begins with. */
  lemma CutCharacterIsReplaced(c: char, j: nat)
    requires 1 <= j < |EncodeChar(c)|
    ensures Decode(EncodeChar(c)[..j]) == [REPLACEMENT]
    ensures Decode([EncodeChar(c)[j]]) == [REPLACEMENT]
  {
    var n, start, next := c as int, EncodeChar(c)[..j], [EncodeChar(c)[j]];
    if 0x80 <= n < 0x800 { TwoBytes(n); }
    else if 0x800 <= n < 0x10000 { ThreeBytes(n); }
    else { FourBytes(n); }
    assert DecodeOne(start) == (REPLACEMENT, j) && start[j..] == [];
    assert DecodeOne(next) == (REPLACEMENT, 1) && next[1..] == [];
  }

  lemma {:induction false} DecodeEncoded(text: string)
    ensures Decode(Encode(text)) == text
  {
    if text != "" {
      var c, rest := EncodeChar(text[0]), Encode(text[1..]);
      DecodeEncodedChar(text[0], rest);
      DecodeEncoded(text[1..]);
      assert (c + rest)[|c|..] == rest;
      assert text == [text[0]] + text[1..];
    }
  }

  // ---------------------------------------- a cut inside a character makes the text longer

  function Leads(bytes: seq<Byte>): nat {
    if bytes == [] then 0 else (if Continues(bytes[0]) then 0 else 1) + Leads(bytes[1..])
  }

  lemma {:induction false} LeadsOfConcat(a: seq<Byte>, b: seq<Byte>)
    ensures Leads(a + b) == Leads(a) + Leads(b)
  {
    if a == [] {
      assert a + b == b;
    } else {
      assert (a + b)[1..] == a[1..] + b;
      LeadsOfConcat(a[1..], b);
    }
  }

  lemma {:induction false} NoLeads(bytes: seq<Byte>)
    requires forall i :: 0 <= i < |bytes| ==> Continues(bytes[i])
    ensures Leads(bytes) == 0
  {
    if bytes != [] { NoLeads(bytes[1..]); }
  }

  lemma OneLead(bytes: seq<Byte>)
    requires bytes != [] && !Continues(bytes[0])
    requires forall i :: 1 <= i < |bytes| ==> Continues(bytes[i])
    ensures Leads(bytes) == 1
  {
    NoLeads(bytes[1..]);
  }

  lemma {:induction false} OneLeadPerChar(text: string)
    ensures Leads(Encode(text)) == |text|
  {
    if text != "" {
      OneLeadPerChar(text[1..]);
      LeadsOfConcat(EncodeChar(text[0]), Encode(text[1..]));
      OneLead(EncodeChar(text[0]));
    }
  }

  lemma UsedBytes(bytes: seq<Byte>)
    requires bytes != []
    ensures var used := DecodeOne(bytes).1;
      && 1 <= used <= |bytes|
      && (forall i :: 1 <= i < used ==> Continues(bytes[i]))
      && (Continues(bytes[0]) ==> used == 1)
  {
  }

  lemma LeadsAfter(bytes: seq<Byte>, used: nat)
    requires 1 <= used <= |bytes|
    requires forall i :: 1 <= i < used ==> Continues(bytes[i])
    requires Continues(bytes[0]) ==> used == 1
    ensures Leads(bytes) == Leads(bytes[used..]) + (if Continues(bytes[0]) then 0 else 1)
  {
    assert bytes == bytes[..used] + bytes[used..];
    LeadsOfConcat(bytes[..used], bytes[used..]);
    if Continues(bytes[0]) { NoLeads(bytes[..used]); } else { OneLead(bytes[..used]); }
  }

  // A decoded character takes up at most one first byte.
  lemma {:induction false} DecodedLength(bytes: seq<Byte>)
    ensures |Decode(bytes)| >= Leads(bytes) + (if StartsWell(bytes) then 0 else 1)
  {
    if bytes != [] {
      var used := DecodeOne(bytes).1;
      UsedBytes(bytes);
      LeadsAfter(bytes, used);
      DecodedLength(bytes[used..]);
    }
  }

  lemma DecodeEachFront(chunks: seq<seq<Byte>>)
    requires chunks != []
    ensures Glue(DecodeEach(chunks)) == Glue(DecodeEach(chunks[..|chunks| - 1])) + Decode(chunks[|chunks| - 1])
  {
    assert DecodeEach(chunks)[..|chunks| - 1] == DecodeEach(chunks[..|chunks| - 1]);
  }

  lemma {:induction false} BadCutsMakeItLonger(chunks: seq<seq<Byte>>)
    ensures |Glue(DecodeEach(chunks))| >= Leads(Bytes(chunks)) + (if AllStartWell(chunks) then 0 else 1)
  {
    if chunks != [] {
      var front, last := chunks[..|chunks| - 1], chunks[|chunks| - 1];
      BadCutsMakeItLonger(front);
      DecodedLength(last);
      DecodeEachFront(chunks);
      LeadsOfConcat(Bytes(front), last);
      assert AllStartWell(front) && StartsWell(last) ==> AllStartWell(chunks);
    }
  }

  // ------------------------------------------------ cuts between characters do no harm

  lemma {:induction false} EncodeOfConcat(a: string, b: string)
    ensures Encode(a + b) == Encode(a) + Encode(b)
  {
    if a == "" {
      assert a + b == b;
    } else {
      assert (a + b)[1..] == a[1..] + b;
      EncodeOfConcat(a[1..], b);
    }
  }

  lemma InsideAChar(text: string, k: nat)
    requires text != "" && 0 < k <= |Encode(text)|
    ensures StartsWell(Encode(text)[k..]) ==> k >= |EncodeChar(text[0])|
  {
    var c := EncodeChar(text[0]);
    assert forall i :: 1 <= i < |c| ==> Encode(text)[i] == c[i] && Continues(c[i]);
    assert k < |Encode(text)| ==> Encode(text)[k..][0] == Encode(text)[k];
  }

  // A cut before a first byte, or at the end, is a cut between two characters.
  lemma {:induction false} CutBetween(text: string, k: nat) returns (j: nat)
    requires k <= |Encode(text)| && StartsWell(Encode(text)[k..])
    ensures j <= |text| && Encode(text)[..k] == Encode(text[..j]) && Encode(text)[k..] == Encode(text[j..])
  {
    if k == 0 {
      j := 0;
    } else {
      var c := EncodeChar(text[0]);
      InsideAChar(text, k);
      assert Encode(text)[k..] == Encode(text[1..])[k - |c|..];
      var i := CutBetween(text[1..], k - |c|);
      j := i + 1;
      assert text[..j][1..] == text[1..][..i] && text[j..] == text[1..][i..];
      assert Encode(text)[..k] == c + Encode(text[1..])[..k - |c|];
    }
  }

  lemma LastChunk(chunks: seq<seq<Byte>>, text: string) returns (j: nat)
    requires chunks != [] && Bytes(chunks) == Encode(text) && StartsWell(chunks[|chunks| - 1])
    ensures j <= |text|
    ensures Bytes(chunks[..|chunks| - 1]) == Encode(text[..j]) && chunks[|chunks| - 1] == Encode(text[j..])
  {
    var front, last := Bytes(chunks[..|chunks| - 1]), chunks[|chunks| - 1];
    assert Encode(text)[|front|..] == last && Encode(text)[..|front|] == front;
    j := CutBetween(text, |front|);
  }

  lemma JoinDecoded(chunks: seq<seq<Byte>>, text: string, j: nat)
    requires chunks != [] && j <= |text|
    requires Glue(DecodeEach(chunks[..|chunks| - 1])) == text[..j]
    requires chunks[|chunks| - 1] == Encode(text[j..])
    ensures Glue(DecodeEach(chunks)) == text
  {
    DecodeEachFront(chunks);
    DecodeEncoded(text[j..]);
    assert text == text[..j] + text[j..];
  }

  lemma {:induction false} GoodCutsDecode(chunks: seq<seq<Byte>>, text: string)
    requires Bytes(chunks) == Encode(text) && AllStartWell(chunks)
    ensures Glue(DecodeEach(chunks)) == text
  {
    if chunks == [] {
      OneLeadPerChar(text);
    } else {
      var j := LastChunk(chunks, text);
      GoodCutsDecode(chunks[..|chunks| - 1], text[..j]);
      JoinDecoded(chunks, text, j);
    }
  }

  // ------------------------------------------------------------------ theorems

  /** Decoding chunk by chunk gives back the text exactly when no chunk begins inside a
   *  character. */
  lemma TextSurvivesExactlyWhenCutBetween(chunks: seq<seq<Byte>>, text: string)
    requires Bytes(chunks) == Encode(text)
    ensures Glue(DecodeEach(chunks)) == text <==> AllStartWell(chunks)
  {
    if AllStartWell(chunks) {
      GoodCutsDecode(chunks, text);
    } else {
      BadCutsMakeItLonger(chunks);
      OneLeadPerChar(text);
    }
  }

  /** So a stream cut between characters, wherever, is read as the lines of its text. */
  lemma CutBetweenReadsTheLines(chunks: seq<seq<Byte>>, text: string)
    requires Bytes(chunks) == Encode(text) && AllStartWell(chunks)
    ensures Feed(DecodeEach(chunks)) == Reader(Lines(text), Rest(text))
  {
    TextSurvivesExactlyWhenCutBetween(chunks, text);
    ChunksDoNotMatter(DecodeEach(chunks));
  }
}
