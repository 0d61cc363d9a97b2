/** UTF-8 as Python writes it and reads it back with errors="replace". */
module Utf8 {
  type byte = n: int | 0 <= n < 256 witness 0

  const REPLACEMENT := '\U{FFFD}'
  const NEWLINE: byte := 10

  /** The bytes of one character (section 3 of RFC 3629). */
  function EncodeChar(c: char): (b: seq<byte>)
    ensures 1 <= |b| <= 4
  {
    var n := c as int;
    if n < 0x80 then [n]
    else if n < 0x800 then [0xC0 + n / 64, 0x80 + n % 64]
    else if n < 0x10000 then [0xE0 + n / 4096, 0x80 + n / 64 % 64, 0x80 + n % 64]
    else [0xF0 + n / 262144, 0x80 + n / 4096 % 64, 0x80 + n / 64 % 64, 0x80 + n % 64]
  }

  function Encode(s: string): seq<byte> {
    if s == "" then [] else EncodeChar(s[0]) + Encode(s[1..])
  }

  /** The bytes that may follow a leading byte, which rule out overlong forms and surrogates. */
  predicate MayFollow(lead: byte, b: byte) {
    (if lead == 0xE0 then 0xA0 else if lead == 0xF0 then 0x90 else 0x80)
      <= b <= (if lead == 0xED then 0x9F else if lead == 0xF4 then 0x8F else 0xBF)
  }

  predicate Continues(b: seq<byte>, i: nat) {
    i < |b| && 0x80 <= b[i] <= 0xBF
  }

  datatype Read = Read(c: char, used: nat)

  /** The six payload bits of a continuation byte. */
  function Low(b: byte): nat
    requires 0x80 <= b <= 0xBF
  {
    b as int - 0x80
  }

  predicate TwoBytes(lead: byte, b: byte) {
    0xC2 <= lead < 0xE0 && MayFollow(lead, b)
  }

  function Char2(lead: byte, b: byte): char
    requires TwoBytes(lead, b)
  {
    (64 * (lead as int - 0xC0) + Low(b)) as char
  }

  predicate ThreeBytes(lead: byte, b: byte) {
    0xE0 <= lead < 0xF0 && MayFollow(lead, b)
  }

  function Char3(lead: byte, b: byte, c: byte): char
    requires ThreeBytes(lead, b) && 0x80 <= c <= 0xBF
  {
    (4096 * (lead as int - 0xE0) + 64 * Low(b) + Low(c)) as char
  }

  predicate FourBytes(lead: byte, b: byte) {
    0xF0 <= lead < 0xF5 && MayFollow(lead, b)
  }

  function Char4(lead: byte, b: byte, c: byte, d: byte): char
    requires FourBytes(lead, b) && 0x80 <= c <= 0xBF && 0x80 <= d <= 0xBF
  {
    (262144 * (lead as int - 0xF0) + 4096 * Low(b) + 64 * Low(c) + Low(d)) as char
  }

  /**
   * One character off the front. A malformed start is read as U+FFFD and takes with it
   * only the bytes that could have begun a character.
   */
  function Next(b: seq<byte>): (r: Read)
    requires b != []
    ensures 1 <= r.used <= |b|
  {
    if b[0] < 0x80 then Read(b[0] as char, 1)
    else if |b| > 1 && TwoBytes(b[0], b[1]) then Read(Char2(b[0], b[1]), 2)
    else if |b| > 1 && ThreeBytes(b[0], b[1]) then
      if Continues(b, 2) then Read(Char3(b[0], b[1], b[2]), 3) else Read(REPLACEMENT, 2)
    else if |b| > 1 && FourBytes(b[0], b[1]) then
      if !Continues(b, 2) then Read(REPLACEMENT, 2)
      else if !Continues(b, 3) then Read(REPLACEMENT, 3)
      else Read(Char4(b[0], b[1], b[2], b[3]), 4)
    else Read(REPLACEMENT, 1)
  }

  function Decode(b: seq<byte>): string {
    if b == [] then "" else [Next(b).c] + Decode(b[Next(b).used..])
  }

  lemma Char2Reads(n: nat)
    requires 0x80 <= n < 0x800
    ensures TwoBytes(0xC0 + n / 64, 0x80 + n % 64) && Char2(0xC0 + n / 64, 0x80 + n % 64) as int == n
  {
  }

  lemma Char3Reads(n: nat)
    requires 0x800 <= n < 0xD800 || 0xE000 <= n < 0x10000
    ensures ThreeBytes(0xE0 + n / 4096, 0x80 + n / 64 % 64)
    ensures Char3(0xE0 + n / 4096, 0x80 + n / 64 % 64, 0x80 + n % 64) as int == n
  {
    assert n / 64 / 64 == n / 4096;
  }

  lemma Char4Reads(n: nat)
    requires 0x10000 <= n < 0x110000
    ensures FourBytes(0xF0 + n / 262144, 0x80 + n / 4096 % 64)
    ensures Char4(0xF0 + n / 262144, 0x80 + n / 4096 % 64, 0x80 + n / 64 % 64, 0x80 + n % 64) as int == n
  {
    assert n / 64 / 64 == n / 4096;
    assert n / 4096 / 64 == n / 262144;
  }

  lemma NextReadsEncoded(c: char, r: seq<byte>)
    ensures Next(EncodeChar(c) + r) == Read(c, |EncodeChar(c)|)
  {
    hide Char2, Char3, Char4, MayFollow;
    var n := c as int;
    if 0x80 <= n < 0x800 {
      Char2Reads(n);
    } else if 0x800 <= n < 0x10000 {
      Char3Reads(n);
    } else if n >= 0x10000 {
      Char4Reads(n);
    }
  }

  /** Reading gives back what was written, whatever bytes come after. */
  lemma {:induction false} DecodeEncoded(s: string, r: seq<byte>)
    ensures Decode(Encode(s) + r) == s + Decode(r)
  {
    if s == "" {
      assert Encode(s) + r == r;
    } else {
      var e, t := EncodeChar(s[0]), Encode(s[1..]);
      assert Encode(s) + r == e + (t + r);
      NextReadsEncoded(s[0], t + r);
      assert (e + (t + r))[|e|..] == t + r;
      DecodeEncoded(s[1..], r);
    }
  }

  /** A byte below 0x80 never belongs to the character before it. */
  lemma NextStopsAtAscii(b: seq<byte>, r: seq<byte>)
    requires b != [] && (r == [] || r[0] < 0x80)
    ensures Next(b + r) == Next(b)
  {
    var w := b + r;
    assert forall i | 0 <= i < |b| :: w[i] == b[i];
    assert r != [] ==> w[|b|] == r[0];
  }

  /** Text can be cut in front of any ASCII byte, even inside malformed input. */
  lemma {:induction false} DecodeSplits(b: seq<byte>, r: seq<byte>)
    requires r == [] || r[0] < 0x80
    ensures Decode(b + r) == Decode(b) + Decode(r)
  {
    if b == [] {
      assert b + r == r;
    } else {
      NextStopsAtAscii(b, r);
      var n := Next(b).used;
      assert (b + r)[n..] == b[n..] + r;
      DecodeSplits(b[n..], r);
    }
  }
}
