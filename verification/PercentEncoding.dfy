/** Percent-encoding (section 2.1 of RFC 3986) and cutting text at a delimiter. */
module PercentEncoding {
  import opened Prelude
  import opened Text
  import Utf8

  // ---------------------------------------------------------------- cutting at a character

  datatype Parts = Parts(before: string, after: Option<string>)

  /** Everything before the first `c`, and everything after it if there is one. */
  function Cut(s: string, c: char): Parts {
    if s == "" then Parts("", None)
    else if s[0] == c then Parts("", Some(s[1..]))
    else var p := Cut(s[1..], c); Parts([s[0]] + p.before, p.after)
  }

  /** The same at the last `c`. */
  function CutLast(s: string, c: char): Parts {
    if s == "" then Parts("", None)
    else
      var n := |s| - 1;
      if s[n] == c then Parts(s[..n], Some(""))
      else match CutLast(s[..n], c)
        case Parts(_, None) => Parts(s, None)
        case Parts(a, Some(b)) => Parts(a, Some(b + [s[n]]))
  }

  lemma {:induction false} CutFinds(a: string, c: char, b: string)
    requires c !in a
    ensures Cut(a + [c] + b, c) == Parts(a, Some(b))
  {
    var s := a + [c] + b;
    if a == "" {
      assert s[1..] == b;
    } else {
      assert s[1..] == a[1..] + [c] + b;
      CutFinds(a[1..], c, b);
    }
  }

  lemma {:induction false} CutMisses(a: string, c: char)
    requires c !in a
    ensures Cut(a, c) == Parts(a, None)
  {
    if a != "" {
      CutMisses(a[1..], c);
    }
  }

  lemma {:induction false} CutLastFinds(a: string, c: char, b: string)
    requires c !in b
    ensures CutLast(a + [c] + b, c) == Parts(a, Some(b))
  {
    var s := a + [c] + b;
    var n := |s| - 1;
    if b == "" {
      assert s[..n] == a;
    } else {
      assert s[..n] == a + [c] + b[..|b| - 1] && s[n] == b[|b| - 1];
      CutLastFinds(a, c, b[..|b| - 1]);
      assert b == b[..|b| - 1] + [s[n]];
    }
  }

  /** Cutting never lets a character through that was not there, and `c` stays out of the front. */
  lemma {:induction false} CutBefore(s: string, c: char)
    ensures c !in Cut(s, c).before && Cut(s, c).before <= s
    ensures Cut(s, c).after.Some? ==> s == Cut(s, c).before + [c] + Cut(s, c).after.value
    ensures Cut(s, c).after.Some? <==> c in s
  {
    if s != "" && s[0] != c {
      CutBefore(s[1..], c);
      assert s == [s[0]] + s[1..];
    }
  }

  lemma {:induction false} CutLastBefore(s: string, c: char)
    ensures CutLast(s, c).before <= s
    ensures CutLast(s, c).after.Some? ==> s == CutLast(s, c).before + [c] + CutLast(s, c).after.value
  {
    if s != "" {
      CutLastBefore(s[..|s| - 1], c);
      assert s == s[..|s| - 1] + [s[|s| - 1]];
    }
  }

  // ---------------------------------------------------------------- percent-encoding

  /** The unreserved characters of section 2.3 of RFC 3986. */
  predicate Unreserved(c: char) {
    'A' <= c <= 'Z' || 'a' <= c <= 'z' || '0' <= c <= '9' || c in "_.-~"
  }

  function HexUpper(d: nat): (c: char)
    requires d < 16
    ensures Unreserved(c)
  {
    if d < 10 then DigitChar(d) else ('A' as int + d - 10) as char
  }

  function UnHex(c: char): (d: Option<nat>)
    ensures d.Some? ==> d.value < 16
  {
    if '0' <= c <= '9' then Some(c as int - '0' as int)
    else if 'A' <= c <= 'F' then Some(c as int - 'A' as int + 10)
    else if 'a' <= c <= 'f' then Some(c as int - 'a' as int + 10)
    else None
  }

  function QuoteByte(b: Utf8.byte): (s: string)
    ensures s != ""
  {
    if b < 128 && Unreserved(b as char) then [b as char]
    else "%" + [HexUpper(b as int / 16), HexUpper(b as int % 16)]
  }

  function QuoteBytes(b: seq<Utf8.byte>): string {
    if b == [] then "" else QuoteByte(b[0]) + QuoteBytes(b[1..])
  }

  /** `urllib.parse.quote(value, safe="")` */
  function Quote(s: string): string {
    QuoteBytes(Utf8.Encode(s))
  }

  function Escaped(t: string): (b: Option<Utf8.byte>)
    ensures b.Some? ==> |t| >= 3
  {
    if |t| < 3 || t[0] != '%' then None
    else match (UnHex(t[1]), UnHex(t[2]))
      case (Some(high), Some(low)) => Some(16 * high + low)
      case _ => None
  }

  function UnquoteBytes(t: string): seq<Utf8.byte> {
    if t == "" then []
    else match Escaped(t)
      case Some(b) => [b] + UnquoteBytes(t[3..])
      case None => Utf8.EncodeChar(t[0]) + UnquoteBytes(t[1..])
  }

  /** What a client reads: escapes become bytes, and the bytes are UTF-8. */
  function Unquote(t: string): string {
    Utf8.Decode(UnquoteBytes(t))
  }

  lemma UnquoteByte(b: Utf8.byte, r: string)
    ensures UnquoteBytes(QuoteByte(b) + r) == [b] + UnquoteBytes(r)
  {
    var q := QuoteByte(b);
    var t := q + r;
    assert t[..|q|] == q && t[|q|..] == r;
    if b < 128 && Unreserved(b as char) {
      assert t[0] == b as char && t[0] != '%';
    } else {
      assert t[0] == q[0] && t[1] == q[1] && t[2] == q[2];
      assert 16 * (b as int / 16) + b as int % 16 == b as int;
    }
  }

  lemma {:induction false} UnquoteQuotedBytes(b: seq<Utf8.byte>)
    ensures UnquoteBytes(QuoteBytes(b)) == b
  {
    if b != [] {
      UnquoteByte(b[0], QuoteBytes(b[1..]));
      UnquoteQuotedBytes(b[1..]);
    }
  }

  /** Every string survives the trip through a link. */
  lemma UnquoteQuoted(s: string)
    ensures Unquote(Quote(s)) == s
  {
    UnquoteQuotedBytes(Utf8.Encode(s));
    Utf8.DecodeEncoded(s, []);
    assert Utf8.Encode(s) + [] == Utf8.Encode(s);
  }

  predicate Inert(c: char) {
    Unreserved(c) || c == '%'
  }

  /** No delimiter of a link is ever produced by a value. */
  lemma {:induction false} QuotedIsInert(b: seq<Utf8.byte>)
    ensures forall c | c in QuoteBytes(b) :: Inert(c)
    ensures b != [] ==> QuoteBytes(b) != ""
  {
    if b != [] {
      QuotedIsInert(b[1..]);
    }
  }

  lemma QuoteIsInert(s: string)
    ensures forall c | c in Quote(s) :: Inert(c)
    ensures s != "" ==> Quote(s) != ""
  {
    QuotedIsInert(Utf8.Encode(s));
  }
}
