/** Stored timestamps: fixed-width ISO text that sorts like time. */
module Timestamps {
  import opened Prelude
  import opened Text

  /** A UTC datetime, field by field. */
  datatype Moment = Moment(year: nat, month: nat, day: nat, hour: nat, minute: nat, second: nat, micro: nat)

  predicate Valid(m: Moment) {
    && 1 <= m.year <= 9999 && 1 <= m.month <= 12 && 1 <= m.day <= 31
    && m.hour < 24 && m.minute < 60 && m.second < 60 && m.micro < 1_000_000
  }

  /** The years whose decimal form has four digits. */
  predicate FourDigits(m: Moment) {
    Valid(m) && m.year >= 1000
  }

  function Sign(a: int, b: int): int {
    if a < b then -1 else if a > b then 1 else 0
  }

  function Then(first: int, second: int): int {
    if first != 0 then first else second
  }

  /** How datetimes compare: by year, then month, and so on down to the microsecond. */
  function CompareMoments(a: Moment, b: Moment): int {
    Then(Sign(a.year, b.year), Then(Sign(a.month, b.month), Then(Sign(a.day, b.day),
      Then(Sign(a.hour, b.hour), Then(Sign(a.minute, b.minute), Then(Sign(a.second, b.second),
        Sign(a.micro, b.micro)))))))
  }

  predicate NotAfter(a: Moment, b: Moment) {
    CompareMoments(a, b) <= 0
  }

  function Truncated(m: Moment): Moment {
    m.(micro := 0)
  }

  // ---------------------------------------------------------------- text

  /** The last `w` decimal digits of `n`. */
  function Pad(n: nat, w: nat): (s: string)
    ensures |s| == w && AllDigits(s)
  {
    if w == 0 then "" else Pad(n / 10, w - 1) + [DigitChar(n % 10)]
  }

  /** `to_iso`: the C library does not pad the year. */
  function Iso(m: Moment): string {
    Digits(m.year) + ("-" + (Pad(m.month, 2) + ("-" + (Pad(m.day, 2) + ("T" + (Pad(m.hour, 2)
      + (":" + (Pad(m.minute, 2) + (":" + (Pad(m.second, 2) + "Z"))))))))))
  }

  /** How SQLite compares text: character by character, a prefix first. */
  function CompareText(a: string, b: string): int {
    if a == "" || b == "" then Sign(|a|, |b|)
    else Then(Sign(a[0] as int, b[0] as int), CompareText(a[1..], b[1..]))
  }

  /** `w` digits and a separator off the front. */
  function ReadField(s: string, w: nat, separator: char): Option<(nat, string)> {
    if |s| > w && AllDigits(s[..w]) && s[w] == separator then Some((Value(s[..w]), s[w + 1..])) else None
  }

  /** `parse_iso` on the form `to_iso` writes; anything else is not a date here. */
  function ParseIso(s: string): Option<Moment> {
    match ReadField(s, 4, '-')
    case None => None
    case Some((year, s1)) => match ReadField(s1, 2, '-')
    case None => None
    case Some((month, s2)) => match ReadField(s2, 2, 'T')
    case None => None
    case Some((day, s3)) => match ReadField(s3, 2, ':')
    case None => None
    case Some((hour, s4)) => match ReadField(s4, 2, ':')
    case None => None
    case Some((minute, s5)) => match ReadField(s5, 2, 'Z')
    case None => None
    case Some((second, s6)) =>
      var m := Moment(year, month, day, hour, minute, second, 0);
      if s6 == "" && Valid(m) then Some(m) else None
  }

  // ---------------------------------------------------------------- text sorts like time

  function Pow10(w: nat): nat {
    if w == 0 then 1 else 10 * Pow10(w - 1)
  }

  lemma {:induction false} ValueOfPad(n: nat, w: nat)
    requires n < Pow10(w)
    ensures Value(Pad(n, w)) == n
  {
    if w > 0 {
      var s := Pad(n, w);
      assert n / 10 < Pow10(w - 1);
      ValueOfPad(n / 10, w - 1);
      assert s[..|s| - 1] == Pad(n / 10, w - 1);
    }
  }

  lemma {:induction false} CompareConcat(a: string, b: string, c: string, d: string)
    requires |a| == |b|
    ensures CompareText(a + c, b + d) == Then(CompareText(a, b), CompareText(c, d))
  {
    if a == "" {
      assert a + c == c && b + d == d;
    } else {
      assert (a + c)[1..] == a[1..] + c && (b + d)[1..] == b[1..] + d;
      CompareConcat(a[1..], b[1..], c, d);
    }
  }

  lemma {:induction false} ComparePads(m: nat, n: nat, w: nat)
    requires m < Pow10(w) && n < Pow10(w)
    ensures CompareText(Pad(m, w), Pad(n, w)) == Sign(m, n)
  {
    if w > 0 {
      assert m / 10 < Pow10(w - 1) && n / 10 < Pow10(w - 1);
      ComparePads(m / 10, n / 10, w - 1);
      var c, d := [DigitChar(m % 10)], [DigitChar(n % 10)];
      CompareConcat(Pad(m / 10, w - 1), Pad(n / 10, w - 1), c, d);
      assert CompareText(c, d) == Sign(m % 10, n % 10) by {
        assert c[1..] == "" && d[1..] == "";
      }
    }
  }

  /** One fixed-width field in front of the rest of the text. */
  lemma CompareField(m: nat, n: nat, w: nat, separator: char, c: string, d: string)
    requires m < Pow10(w) && n < Pow10(w)
    ensures CompareText(Pad(m, w) + ([separator] + c), Pad(n, w) + ([separator] + d))
      == Then(Sign(m, n), CompareText(c, d))
  {
    ComparePads(m, n, w);
    CompareConcat(Pad(m, w), Pad(n, w), [separator] + c, [separator] + d);
    CompareConcat([separator], [separator], c, d);
    assert CompareText([separator], [separator]) == 0 by {
      assert [separator][1..] == "";
    }
  }

  lemma YearIsPadded(y: nat)
    requires 1000 <= y <= 9999
    ensures Digits(y) == Pad(y, 4)
  {
    assert Digits(y / 1000) == [DigitChar(y / 1000)] == Pad(y / 1000, 1);
    assert y / 100 / 10 == y / 1000 && y / 10 / 10 == y / 100;
    assert Digits(y / 100) == Pad(y / 100, 2);
    assert Digits(y / 10) == Pad(y / 10, 3);
  }

  function Clock(m: Moment): string {
    Pad(m.hour, 2) + (":" + (Pad(m.minute, 2) + (":" + (Pad(m.second, 2) + "Z"))))
  }

  lemma CompareClocks(a: Moment, b: Moment)
    requires Valid(a) && Valid(b)
    ensures CompareText(Clock(a), Clock(b))
      == Then(Sign(a.hour, b.hour), Then(Sign(a.minute, b.minute), Sign(a.second, b.second)))
  {
    assert Pow10(2) == 10 * Pow10(1) == 100;
    CompareField(a.second, b.second, 2, 'Z', "", "");
    assert "Z" + "" == "Z";
    CompareField(a.minute, b.minute, 2, ':', Pad(a.second, 2) + "Z", Pad(b.second, 2) + "Z");
    CompareField(a.hour, b.hour, 2, ':',
      Pad(a.minute, 2) + (":" + (Pad(a.second, 2) + "Z")), Pad(b.minute, 2) + (":" + (Pad(b.second, 2) + "Z")));
    hide Pad, CompareText;
  }

  /** Stored text compares exactly like the moments it stands for, to the second. */
  lemma TextSortsLikeTime(a: Moment, b: Moment)
    requires FourDigits(a) && FourDigits(b)
    ensures CompareText(Iso(a), Iso(b)) == CompareMoments(Truncated(a), Truncated(b))
  {
    assert Pow10(2) == 10 * Pow10(1) == 100;
    assert Pow10(4) == 10 * Pow10(3) == 100 * Pow10(2);
    YearIsPadded(a.year);
    YearIsPadded(b.year);
    CompareClocks(a, b);
    CompareField(a.day, b.day, 2, 'T', Clock(a), Clock(b));
    var c, d := Pad(a.day, 2) + ("T" + Clock(a)), Pad(b.day, 2) + ("T" + Clock(b));
    CompareField(a.month, b.month, 2, '-', c, d);
    CompareField(a.year, b.year, 4, '-', Pad(a.month, 2) + ("-" + c), Pad(b.month, 2) + ("-" + d));
    assert Iso(a) == Pad(a.year, 4) + ("-" + (Pad(a.month, 2) + ("-" + c)));
    assert Iso(b) == Pad(b.year, 4) + ("-" + (Pad(b.month, 2) + ("-" + d)));
    hide Pad, CompareText, Iso, Clock, Digits;
  }

  lemma ReadPadded(n: nat, w: nat, separator: char, rest: string)
    requires n < Pow10(w)
    ensures ReadField(Pad(n, w) + ([separator] + rest), w, separator) == Some((n, rest))
  {
    var p := Pad(n, w);
    var s := p + ([separator] + rest);
    ValueOfPad(n, w);
    assert s[..w] == p && s[w] == separator && s[w + 1..] == rest;
  }

  /** Text of the stored form is read back, in whole seconds, exactly when it names a month, day and time there is. */
  lemma ReadsBackIff(m: Moment)
    requires 1000 <= m.year <= 9999
    requires m.month < 100 && m.day < 100 && m.hour < 100 && m.minute < 100 && m.second < 100
    ensures ParseIso(Iso(m)) ==
      if 1 <= m.month <= 12 && 1 <= m.day <= 31 && m.hour <= 23 && m.minute <= 59 && m.second <= 59
      then Some(Truncated(m)) else None
  {
    assert Pow10(2) == 10 * Pow10(1) == 100;
    assert Pow10(4) == 10 * Pow10(3) == 100 * Pow10(2);
    YearIsPadded(m.year);
    assert "Z" + "" == "Z";
    var s5 := Pad(m.second, 2) + ("Z" + "");
    var s4 := Pad(m.minute, 2) + (":" + s5);
    var s3 := Pad(m.hour, 2) + (":" + s4);
    var s2 := Pad(m.day, 2) + ("T" + s3);
    var s1 := Pad(m.month, 2) + ("-" + s2);
    assert Iso(m) == Pad(m.year, 4) + ("-" + s1);
    ReadPadded(m.year, 4, '-', s1);
    ReadPadded(m.month, 2, '-', s2);
    ReadPadded(m.day, 2, 'T', s3);
    ReadPadded(m.hour, 2, ':', s4);
    ReadPadded(m.minute, 2, ':', s5);
    ReadPadded(m.second, 2, 'Z', "");
    hide Pad, Iso, ReadField, Digits;
  }

  /** Reading stored text back gives the moment in whole seconds. */
  lemma IsoRoundTrip(m: Moment)
    requires FourDigits(m)
    ensures ParseIso(Iso(m)) == Some(Truncated(m))
  {
    ReadsBackIff(m);
    hide Iso, ParseIso;
  }

  /** With three-digit years the text sorts the wrong way round. */
  lemma ShortYearsSortWrong(a: Moment, b: Moment)
    requires Valid(a) && a.year == 999 && FourDigits(b) && b.year == 1000
    ensures CompareText(Iso(a), Iso(b)) == 1 && CompareMoments(a, b) == -1
    ensures ParseIso(Iso(a)) == None
  {
    YearIsPadded(1000);
    assert Digits(999) == "999" by {
      assert Digits(99) == Digits(9) + ['9'];
    }
    assert Digits(1000)[0] == '1' by {
      assert Digits(10)[0] == '1' && Digits(100)[0] == '1';
    }
    assert Iso(a)[0] == '9' && Iso(a)[3] == '-' && Iso(b)[0] == '1';
    assert !IsDigit(Iso(a)[..4][3]);
  }

  /** Cutting `now` to whole seconds makes no difference to a moment stored in whole seconds. */
  lemma TruncationIsHarmless(a: Moment, now: Moment)
    ensures NotAfter(Truncated(a), now) <==> NotAfter(Truncated(a), Truncated(now))
  {
  }

  lemma NotAfterTransitive(a: Moment, b: Moment, c: Moment)
    requires NotAfter(a, b) && NotAfter(b, c)
    ensures NotAfter(a, c)
  {
  }
}
