/**
 The text `json.dumps(tree, sort_keys=True, separators=(",", ":"))` produces,
 and the proof that it determines the tree.
 */
module CanonicalText {
  import opened Json
  import opened Text

  function Escape(c: char): (e: string)
    ensures |e| > 0 && e[0] != '"'
  {
    var n := c as int;
    if c == '"' then "\\\""
    else if c == '\\' then "\\\\"
    else if n == 8 then "\\b"
    else if n == 9 then "\\t"
    else if n == 10 then "\\n"
    else if n == 12 then "\\f"
    else if n == 13 then "\\r"
    else if 0x20 <= n <= 0x7e then [c]
    else if n < 0x10000 then "\\u" + Hex4(n)
    else "\\u" + Hex4(0xd800 + (n - 0x10000) / 0x400) + "\\u" + Hex4(0xdc00 + (n - 0x10000) % 0x400)
  }

  function Hex4(n: nat): (h: string)
    requires n < 0x10000
    ensures |h| == 4
  {
    [HexChar(n / 4096), HexChar(n / 256 % 16), HexChar(n / 16 % 16), HexChar(n % 16)]
  }

  function EscapeAll(s: string): string {
    if s == "" then "" else Escape(s[0]) + EscapeAll(s[1..])
  }

  ghost function Dump(j: Json): string
    decreases j, 1, 0
  {
    match j
    case Null => "null"
    case Bool(b) => if b then "true" else "false"
    case Num(n) => Decimal(n)
    case Str(s) => Quote(s)
    case Arr(items) => "[" + DumpItems(j, 0)
    case Obj(f) => "{" + DumpFields(j, SortedKeys(f.Keys))
  }

  function Quote(s: string): string {
    "\"" + EscapeAll(s) + "\""
  }

  /** The items from `i` on, with the separators and the closing bracket. */
  ghost function DumpItems(j: Json, i: nat): string
    requires j.Arr? && i <= |j.items|
    decreases j, 0, |j.items| - i
  {
    if i == |j.items| then "]"
    else (if i == 0 then "" else ",") + Dump(j.items[i]) + DumpItems(j, i + 1)
  }

  /** The fields named by `keys`, each followed by a separator or the brace. */
  ghost function DumpFields(j: Json, keys: seq<string>): string
    requires j.Obj? && forall k | k in keys :: k in j.fields
    decreases j, 0, |keys|
  {
    if keys == [] then "}"
    else
      Quote(keys[0]) + ":" + Dump(j.fields[keys[0]])
      + (if |keys| == 1 then "" else ",") + DumpFields(j, keys[1..])
  }

  predicate Below(a: string, b: string) {
    if b == "" then false
    else if a == "" then true
    else a[0] < b[0] || (a[0] == b[0] && Below(a[1..], b[1..]))
  }

  lemma {:induction false} BelowIsLinear(a: string, b: string, c: string)
    ensures !Below(a, a)
    ensures Below(a, b) || a == b || Below(b, a)
    ensures Below(a, b) && Below(b, c) ==> Below(a, c)
    decreases |a| + |b| + |c|
  {
    if a != "" && b != "" && c != "" {
      BelowIsLinear(a[1..], b[1..], c[1..]);
      assert a == [a[0]] + a[1..] && b == [b[0]] + b[1..];
    } else if a != "" && b != "" {
      BelowIsLinear(a[1..], b[1..], "");
      assert a == [a[0]] + a[1..] && b == [b[0]] + b[1..];
    } else if a != "" {
      BelowIsLinear(a[1..], "", "");
    }
  }

  lemma LeastKeyExists(s: set<string>)
    requires s != {}
    ensures exists k :: k in s && forall o | o in s && o != k :: Below(k, o)
  {
    var k :| k in s;
    if s - {k} == {} {
      assert forall o | o in s && o != k :: o in s - {k};
      assert k in s && forall o | o in s && o != k :: Below(k, o);
    } else {
      LeastKeyExists(s - {k});
      var m :| m in s - {k} && forall o | o in s - {k} && o != m :: Below(m, o);
      var least := if Below(k, m) then k else m;
      BelowIsLinear(k, m, m);
      forall o | o in s && o != least ensures Below(least, o) {
        BelowIsLinear(k, m, o);
        assert o == k || o in s - {k};
      }
      assert least in s;
    }
  }

  ghost function SortedKeys(s: set<string>): (keys: seq<string>)
    ensures forall k :: k in keys <==> k in s
    ensures |keys| == |s|
  {
    if s == {} then []
    else
      LeastKeyExists(s);
      var k :| k in s && forall o | o in s && o != k :: Below(k, o);
      [k] + SortedKeys(s - {k})
  }

  // ----- the text determines the tree --------------------------------------

  lemma Hex4Parts(n: nat)
    requires n < 0x10000
    ensures n == n / 4096 * 4096 + n / 256 % 16 * 256 + n / 16 % 16 * 16 + n % 16
  {
    assert n / 16 == n / 256 * 16 + n / 16 % 16;
    assert n / 256 == n / 4096 * 16 + n / 256 % 16;
  }

  lemma Hex4Injective(m: nat, n: nat)
    requires m < 0x10000 && n < 0x10000 && Hex4(m) == Hex4(n)
    ensures m == n
  {
    var a, b := Hex4(m), Hex4(n);
    assert a[0] == b[0] && a[1] == b[1] && a[2] == b[2] && a[3] == b[3];
    HexCharInjective(m / 4096, n / 4096);
    HexCharInjective(m / 256 % 16, n / 256 % 16);
    HexCharInjective(m / 16 % 16, n / 16 % 16);
    HexCharInjective(m % 16, n % 16);
    Hex4Parts(m);
    Hex4Parts(n);
  }

  /** How long the character or escape at the head of `t` is. */
  function TokenLength(t: string): nat {
    if |t| < 2 || t[0] != '\\' then 1
    else if t[1] != 'u' then 2
    else if |t| >= 12 && t[2] == 'd' && t[3] in "89ab" then 12
    else 6
  }

  lemma HexCharIs(d: nat)
    requires d < 16
    ensures HexChar(d) == 'd' <==> d == 13
    ensures HexChar(d) in "89ab" <==> 8 <= d <= 11
  {
  }

  /** The first of the UTF-16 code units that a character is escaped as. */
  function HighUnit(c: char): (m: nat)
    ensures m < 0x10000
  {
    var n := c as int;
    if n < 0x10000 then n else 0xd800 + (n - 0x10000) / 0x400
  }

  function LowUnit(c: char): (m: nat)
    requires c as int >= 0x10000
    ensures m < 0x10000
  {
    0xdc00 + (c as int - 0x10000) % 0x400
  }

  lemma SurrogateHead(c: char)
    requires Long(c)
    ensures var h := Hex4(HighUnit(c)); h[0] == 'd' && h[1] in "89ab" <==> c as int >= 0x10000
  {
    var m := HighUnit(c);
    hide HexChar, Long;
    HexCharIs(m / 4096);
    HexCharIs(m / 256 % 16);
    assert m / 256 % 16 == m / 256 - m / 4096 * 16;
  }

  lemma TokenOfEscape(c: char, r: string)
    ensures TokenLength(Escape(c) + r) == |Escape(c)|
  {
    var t := Escape(c) + r;
    if Long(c) {
      SurrogateHead(c);
      assert t[0] == '\\' && t[1] == 'u' && t[2] == Escape(c)[2] && t[3] == Escape(c)[3];
    } else if |Escape(c)| == 2 {
      assert t[0] == '\\' && t[1] == Escape(c)[1];
    } else {
      assert t[0] == c;
    }
  }

  predicate Long(c: char) {
    var n := c as int;
    c != '"' && c != '\\' && n !in {8, 9, 10, 12, 13} && !(0x20 <= n <= 0x7e)
  }

  lemma EscapeInjective(c: char, d: char)
    requires Escape(c) == Escape(d)
    ensures c == d
  {
    var e, f := Escape(c), Escape(d);
    if Long(c) {
      LongInjective(c, d);
    } else {
      assert e[|e| - 1] == f[|f| - 1];
    }
  }

  lemma LongParts(c: char)
    requires Long(c)
    ensures |Escape(c)| == (if c as int < 0x10000 then 6 else 12) && Escape(c)[2..6] == Hex4(HighUnit(c))
    ensures c as int >= 0x10000 ==> Escape(c)[8..12] == Hex4(LowUnit(c))
  {
    hide HexChar;
  }

  lemma UnitsInjective(c: char, d: char)
    requires HighUnit(c) == HighUnit(d) && (c as int >= 0x10000 <==> d as int >= 0x10000)
    requires c as int >= 0x10000 ==> LowUnit(c) == LowUnit(d)
    ensures c == d
  {
  }

  lemma LongInjective(c: char, d: char)
    requires Long(c) && Escape(c) == Escape(d)
    ensures c == d
  {
    ShortEscapes(d);
    hide Escape, Hex4, Long, HighUnit, LowUnit;
    LongParts(c);
    LongParts(d);
    Hex4Injective(HighUnit(c), HighUnit(d));
    if c as int >= 0x10000 {
      Hex4Injective(LowUnit(c), LowUnit(d));
    }
    UnitsInjective(c, d);
  }

  lemma ShortEscapes(c: char)
    ensures Long(c) <==> |Escape(c)| > 2
  {
    hide HexChar;
  }

  /** No escape is the beginning of another one. */
  lemma EscapePrefix(c: char, d: char, r: string, s: string)
    requires Escape(c) + r == Escape(d) + s
    ensures c == d && r == s
  {
    TokenOfEscape(c, r);
    TokenOfEscape(d, s);
    hide Escape, TokenLength;
    CutSame(Escape(c), Escape(d), r, s);
    EscapeInjective(c, d);
  }

  lemma EscapeHead(s: string, r: string)
    ensures (EscapeAll(s) + ("\"" + r))[0] == '"' <==> s == ""
    ensures s != "" ==> EscapeAll(s) + ("\"" + r) == Escape(s[0]) + (EscapeAll(s[1..]) + ("\"" + r))
  {
    if s != "" {
      Reassociate(Escape(s[0]), EscapeAll(s[1..]), "\"" + r);
      hide Escape;
      HeadOf(Escape(s[0]), EscapeAll(s[1..]) + ("\"" + r));
    }
  }

  lemma {:induction false} QuotePrefix(a: string, b: string, r: string, s: string)
    requires EscapeAll(a) + ("\"" + r) == EscapeAll(b) + ("\"" + s)
    ensures a == b && r == s
    decreases |a|
  {
    EscapeHead(a, r);
    EscapeHead(b, s);
    hide EscapeAll;
    if a != "" {
      EscapePrefix(a[0], b[0], EscapeAll(a[1..]) + ("\"" + r), EscapeAll(b[1..]) + ("\"" + s));
      QuotePrefix(a[1..], b[1..], r, s);
      assert a == [a[0]] + a[1..] && b == [b[0]] + b[1..];
    } else {
      EmptyQuotes(r, s);
    }
  }

  lemma EmptyQuotes(r: string, s: string)
    requires EscapeAll("") + ("\"" + r) == EscapeAll("") + ("\"" + s)
    ensures r == s
  {
    assert EscapeAll("") == "";
    CutSame("", "", "\"" + r, "\"" + s);
    CutSame("\"", "\"", r, s);
  }

  lemma DumpStart(j: Json)
    ensures |Dump(j)| > 0
    ensures match j
            case Null => Dump(j)[0] == 'n'
            case Bool(b) => Dump(j)[0] == if b then 't' else 'f'
            case Num(n) => Dump(j)[0] == '-' || IsDigit(Dump(j)[0])
            case Str(_) => Dump(j)[0] == '"'
            case Arr(_) => Dump(j)[0] == '['
            case Obj(_) => Dump(j)[0] == '{'
  {
    if j.Num? { ValueOfDigits(if j.n < 0 then -j.n else j.n); }
  }

  // Dump(a) with what follows it, one constructor at a time.

  lemma DumpShape(j: Json, r: string)
    ensures j.Str? ==> Dump(j) + r == "\"" + (EscapeAll(j.s) + ("\"" + r))
    ensures j.Arr? ==> Dump(j) + r == "[" + (DumpItems(j, 0) + r)
    ensures j.Obj? ==> Dump(j) + r == "{" + (DumpFields(j, SortedKeys(j.fields.Keys)) + r)
  {
    hide EscapeAll, DumpItems, DumpFields, SortedKeys, Digits;
    match j
    case Str(s) =>
      Reassociate("\"" + EscapeAll(s), "\"", r);
      Reassociate("\"", EscapeAll(s), "\"" + r);
    case Arr(_) => Reassociate("[", DumpItems(j, 0), r);
    case Obj(_) => Reassociate("{", DumpFields(j, SortedKeys(j.fields.Keys)), r);
    case _ =>
  }

  lemma ItemsShape(j: Json, i: nat, r: string)
    requires j.Arr? && i <= |j.items|
    ensures DumpItems(j, i) + r != ""
    ensures (DumpItems(j, i) + r)[0] == ']' <==> i == |j.items|
    ensures i == |j.items| ==> DumpItems(j, i) + r == "]" + r
    ensures i < |j.items| ==>
              DumpItems(j, i) + r == (if i == 0 then "" else ",") + (Dump(j.items[i]) + (DumpItems(j, i + 1) + r))
  {
    if i < |j.items| {
      DumpStart(j.items[i]);
      var comma, d, rest := if i == 0 then "" else ",", Dump(j.items[i]), DumpItems(j, i + 1);
      assert DumpItems(j, i) == comma + d + rest;
      hide Dump, DumpItems;
      assert comma + d + rest + r == comma + (d + (rest + r));
      assert (comma + (d + (rest + r)))[0] == if i == 0 then d[0] else ',';
    }
  }

  lemma FieldsShape(j: Json, keys: seq<string>, r: string)
    requires j.Obj? && forall k | k in keys :: k in j.fields
    ensures (DumpFields(j, keys) + r)[0] == if keys == [] then '}' else '"'
    ensures keys == [] ==> DumpFields(j, keys) + r == "}" + r
    ensures keys != [] ==>
              var comma := if |keys| == 1 then "" else ",";
              DumpFields(j, keys) + r ==
              "\"" + (EscapeAll(keys[0]) + ("\"" + (":" + (Dump(j.fields[keys[0]]) +
                 (comma + (DumpFields(j, keys[1..]) + r))))))
  {
    if keys != [] {
      var q, d := EscapeAll(keys[0]), Dump(j.fields[keys[0]]);
      var comma, rest := if |keys| == 1 then "" else ",", DumpFields(j, keys[1..]);
      assert DumpFields(j, keys) == "\"" + q + "\"" + ":" + d + comma + rest;
      hide Dump, DumpFields, EscapeAll;
      JoinField(q, d, comma, rest, r);
    }
  }

  lemma JoinField(q: string, d: string, comma: string, rest: string, r: string)
    ensures "\"" + q + "\"" + ":" + d + comma + rest + r ==
            "\"" + (q + ("\"" + (":" + (d + (comma + (rest + r))))))
  {
    Reassociate("\"" + q + "\"" + ":" + d + comma, rest, r);
    Reassociate("\"" + q + "\"" + ":" + d, comma, rest + r);
    Reassociate("\"" + q + "\"" + ":", d, comma + (rest + r));
    Reassociate("\"" + q + "\"", ":", d + (comma + (rest + r)));
    Reassociate("\"" + q, "\"", ":" + (d + (comma + (rest + r))));
    Reassociate("\"", q, "\"" + (":" + (d + (comma + (rest + r)))));
  }

  lemma {:induction false} DumpPrefix(a: Json, b: Json, r: string, s: string)
    requires Dump(a) + r == Dump(b) + s
    requires Stops(r) && Stops(s)
    ensures a == b && r == s
    decreases a, 1, 0
  {
    DumpStart(a);
    DumpStart(b);
    HeadOf(Dump(a), r);
    HeadOf(Dump(b), s);
    DumpShape(a, r);
    DumpShape(b, s);
    match a
    case Null =>
      CutSame("null", "null", r, s);
    case Bool(x) =>
      CutSame(Dump(a), Dump(b), r, s);
    case Num(x) =>
      NumberPrefix(x, b.n, r, s);
    case Str(x) =>
      hide EscapeAll;
      CutSame("\"", "\"", EscapeAll(x) + ("\"" + r), EscapeAll(b.s) + ("\"" + s));
      QuotePrefix(x, b.s, r, s);
    case Arr(_) =>
      hide DumpItems;
      CutSame("[", "[", DumpItems(a, 0) + r, DumpItems(b, 0) + s);
      ItemsPrefix(a, b, 0, r, s);
      assert a.items[0..] == a.items && b.items[0..] == b.items;
    case Obj(_) =>
      hide DumpFields;
      var ka, kb := SortedKeys(a.fields.Keys), SortedKeys(b.fields.Keys);
      CutSame("{", "{", DumpFields(a, ka) + r, DumpFields(b, kb) + s);
      FieldsPrefix(a, b, ka, kb, r, s);
      SameFields(a.fields, b.fields, ka, kb);
  }

  lemma SameFields(f: map<string, Json>, g: map<string, Json>, ka: seq<string>, kb: seq<string>)
    requires ka == kb
    requires (forall k :: k in ka <==> k in f.Keys) && (forall k :: k in kb <==> k in g.Keys)
    requires forall k | k in ka :: f[k] == g[k]
    ensures f == g
  {
    assert f.Keys == g.Keys;
    forall k | k in f ensures f[k] == g[k] { assert k in ka; }
  }

  lemma DecimalHead(m: int, r: string)
    ensures Decimal(m) + r != "" && ((Decimal(m) + r)[0] == '-' <==> m < 0)
  {
    hide Digits, Value;
    ValueOfDigits(if m < 0 then -m else m);
    HeadOf(Decimal(m), r);
  }

  lemma NumberPrefix(m: int, n: int, r: string, s: string)
    requires Decimal(m) + r == Decimal(n) + s
    requires Stops(r) && Stops(s)
    ensures m == n && r == s
  {
    hide Digits, Value;
    DecimalHead(m, r);
    DecimalHead(n, s);
    if m < 0 {
      Reassociate("-", Digits(-m), r);
      Reassociate("-", Digits(-n), s);
      CutSame("-", "-", Digits(-m) + r, Digits(-n) + s);
      DigitsPrefix(-m, -n, r, s);
    } else {
      DigitsPrefix(m, n, r, s);
    }
  }

  lemma {:induction false} ItemsPrefix(a: Json, b: Json, i: nat, r: string, s: string)
    requires a.Arr? && b.Arr? && i <= |a.items| && i <= |b.items|
    requires DumpItems(a, i) + r == DumpItems(b, i) + s
    ensures a.items[i..] == b.items[i..] && r == s
    decreases a, 0, |a.items| - i
  {
    ItemsShape(a, i, r);
    ItemsShape(b, i, s);
    if i == |a.items| {
      hide DumpItems;
      CutSame("]", "]", r, s);
    } else {
      var x, y := DumpItems(a, i + 1) + r, DumpItems(b, i + 1) + s;
      var comma := if i == 0 then "" else ",";
      ItemsShape(a, i + 1, r);
      ItemsShape(b, i + 1, s);
      ItemsStop(a, i + 1, r);
      ItemsStop(b, i + 1, s);
      hide DumpItems, Dump;
      CutSame(comma, comma, Dump(a.items[i]) + x, Dump(b.items[i]) + y);
      DumpPrefix(a.items[i], b.items[i], x, y);
      ItemsPrefix(a, b, i + 1, r, s);
      assert a.items[i..] == [a.items[i]] + a.items[i + 1..];
      assert b.items[i..] == [b.items[i]] + b.items[i + 1..];
    }
  }

  lemma ItemsStop(j: Json, i: nat, r: string)
    requires j.Arr? && 0 < i <= |j.items|
    ensures Stops(DumpItems(j, i) + r)
  {
    ItemsShape(j, i, r);
    if i < |j.items| { HeadOf(",", Dump(j.items[i]) + (DumpItems(j, i + 1) + r)); }
  }

  lemma {:induction false} FieldsPrefix(a: Json, b: Json, ka: seq<string>, kb: seq<string>, r: string, s: string)
    requires a.Obj? && b.Obj?
    requires (forall k | k in ka :: k in a.fields) && (forall k | k in kb :: k in b.fields)
    requires DumpFields(a, ka) + r == DumpFields(b, kb) + s
    ensures ka == kb && r == s
    ensures forall k | k in ka :: a.fields[k] == b.fields[k]
    decreases a, 0, |ka|
  {
    hide DumpFields, Dump, EscapeAll;
    FieldsShape(a, ka, r);
    FieldsShape(b, kb, s);
    if ka == [] {
      CutSame("}", "}", r, s);
    } else {
      var ca, cb := if |ka| == 1 then "" else ",", if |kb| == 1 then "" else ",";
      var x, y := DumpFields(a, ka[1..]) + r, DumpFields(b, kb[1..]) + s;
      var va, vb := a.fields[ka[0]], b.fields[kb[0]];
      var ta, tb := Dump(va) + (ca + x), Dump(vb) + (cb + y);
      CutSame("\"", "\"", EscapeAll(ka[0]) + ("\"" + (":" + ta)), EscapeAll(kb[0]) + ("\"" + (":" + tb)));
      QuotePrefix(ka[0], kb[0], ":" + ta, ":" + tb);
      CutSame(":", ":", ta, tb);
      FieldsShape(a, ka[1..], r);
      FieldsShape(b, kb[1..], s);
      CommaStops(ca, x);
      CommaStops(cb, y);
      DumpPrefix(va, vb, ca + x, cb + y);
      assert |ca| == |cb|;
      CutSame(ca, cb, x, y);
      FieldsPrefix(a, b, ka[1..], kb[1..], r, s);
      assert ka == [ka[0]] + ka[1..] && kb == [kb[0]] + kb[1..];
    }
  }

  lemma CommaStops(comma: string, x: string)
    requires comma == "" || comma == ","
    requires x != "" && x[0] in "}\""
    ensures Stops(comma + x)
    ensures (comma + x)[0] == if comma == "" then x[0] else ','
  {
  }

  /** `json.dumps(..., sort_keys=True)` loses nothing: equal texts, equal trees. */
  lemma DumpInjective(a: Json, b: Json)
    ensures Dump(a) == Dump(b) <==> a == b
  {
    if Dump(a) == Dump(b) {
      DumpPrefix(a, b, "", "");
    }
  }
}
