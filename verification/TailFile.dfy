/** Reading the end of a log backwards, block by block. */
module TailFile {
  import opened Prelude
  import opened Utf8

  const BLOCK := 8192

  // ---------------------------------------------------------------- str.splitlines

  predicate Breaks(c: char) {
    var n := c as int;
    10 <= n <= 13 || 28 <= n <= 30 || n == 0x85 || n == 0x2028 || n == 0x2029
  }

  /** Characters before the first line boundary. */
  function LineLength(s: string): (n: nat)
    ensures n <= |s|
    ensures n < |s| ==> Breaks(s[n])
  {
    if s == "" || Breaks(s[0]) then 0 else 1 + LineLength(s[1..])
  }

  /** A carriage return and the line feed after it are one boundary. */
  function BoundaryEnd(s: string, n: nat): (e: nat)
    requires n < |s|
    ensures n < e <= |s|
  {
    if s[n] == '\r' && n + 1 < |s| && s[n + 1] == '\n' then n + 2 else n + 1
  }

  function SplitLines(s: string): seq<string>
    decreases |s|
  {
    var n := LineLength(s);
    if s == "" then []
    else if n == |s| then [s]
    else [s[..n]] + SplitLines(s[BoundaryEnd(s, n)..])
  }

  lemma {:induction false} LineLengthStops(a: string, b: string)
    ensures LineLength(a + "\n" + b) == LineLength(a + "\n") <= |a|
  {
    var s, w := a + "\n" + b, a + "\n";
    if a != "" {
      assert s[1..] == a[1..] + "\n" + b && w[1..] == a[1..] + "\n";
      LineLengthStops(a[1..], b);
    }
  }

  /** Text before a line feed is cut the same way whatever follows the line feed. */
  lemma FirstLineSame(a: string, b: string)
    ensures var s, w, n := a + "\n" + b, a + "\n", LineLength(a + "\n");
      && n <= |a| && LineLength(s) == n && s[..n] == w[..n]
      && BoundaryEnd(s, n) == BoundaryEnd(w, n)
  {
    hide LineLength;
    LineLengthStops(a, b);
    var s, w, n := a + "\n" + b, a + "\n", LineLength(a + "\n");
    assert s[n] == w[n];
    assert n < |a| ==> s[n + 1] == w[n + 1];
    assert n == |a| ==> w[n] == '\n';
    assert s[..n] == w[..n];
  }

  lemma SplitFirst(s: string)
    requires LineLength(s) < |s|
    ensures var n := LineLength(s); SplitLines(s) == [s[..n]] + SplitLines(s[BoundaryEnd(s, n)..])
  {
  }

  lemma DropShared(a: string, b: string, e: nat)
    requires e <= |a|
    ensures (a + "\n" + b)[e..] == a[e..] + "\n" + b && (a + "\n")[e..] == a[e..] + "\n"
  {
  }

  /** A line feed ends its line whatever stands on either side of it. */
  lemma {:induction false} SplitAtNewline(a: string, b: string)
    ensures SplitLines(a + "\n" + b) == SplitLines(a + "\n") + SplitLines(b)
    ensures |SplitLines(a + "\n")| >= 1
    decreases |a|
  {
    var s, w := a + "\n" + b, a + "\n";
    FirstLineSame(a, b);
    SplitFirst(s);
    SplitFirst(w);
    assert SplitLines("") == [];
    var n := LineLength(w);
    var e := BoundaryEnd(w, n);
    hide SplitLines, LineLength, BoundaryEnd;
    assert SplitLines(w) == [w[..n]] + SplitLines(w[e..]);
    assert SplitLines(s) == [w[..n]] + SplitLines(s[e..]);
    if e == |w| {
      assert s[e..] == b && w[e..] == "";
    } else {
      DropShared(a, b, e);
      SplitAtNewline(a[e..], b);
    }
  }

  /** The code points at which `str.splitlines` breaks. */
  ghost predicate IsBreak(c: char) {
    c as int in {10, 11, 12, 13, 28, 29, 30, 133, 8232, 8233}
  }

  /** One line boundary, in front of `rest`: a carriage return takes the line feed after it along. */
  ghost predicate IsBoundary(sep: string, rest: string) {
    sep == "\r\n" || (|sep| == 1 && IsBreak(sep[0]) && !(sep == "\r" && rest != "" && rest[0] == '\n'))
  }

  lemma {:induction false} LineLengthIs(line: string, more: string)
    requires forall c | c in line :: !IsBreak(c)
    requires more == "" || IsBreak(more[0])
    ensures LineLength(line + more) == |line|
  {
    if line == "" {
      assert line + more == more;
    } else {
      assert line[0] in line;
      assert (line + more)[1..] == line[1..] + more;
      LineLengthIs(line[1..], more);
    }
  }

  /** What splitting into lines means: a line holds no break, and ends at a boundary or with the text. */
  lemma SplitMeans(line: string, sep: string, rest: string)
    requires forall c | c in line :: !IsBreak(c)
    ensures SplitLines("") == [] && (line != "" ==> SplitLines(line) == [line])
    ensures IsBoundary(sep, rest) ==> SplitLines(line + sep + rest) == [line] + SplitLines(rest)
  {
    LineLengthIs(line, "");
    assert line + "" == line;
    if IsBoundary(sep, rest) {
      var s := line + (sep + rest);
      LineLengthIs(line, sep + rest);
      assert line + sep + rest == s;
      assert s[|line|] == sep[0] && s[..|line|] == line;
      assert BoundaryEnd(s, |line|) == |line| + |sep| by { BoundaryIs(line, sep, rest); }
      assert s[|line| + |sep|..] == rest;
      SplitFirst(s);
    }
  }

  lemma BoundaryIs(line: string, sep: string, rest: string)
    requires IsBoundary(sep, rest)
    ensures BoundaryEnd(line + (sep + rest), |line|) == |line| + |sep|
  {
    var s := line + (sep + rest);
    assert s[|line|..] == sep + rest;
    if sep == "\r\n" {
      assert s[|line|] == '\r' && s[|line| + 1] == '\n';
    } else {
      assert s[|line|] == sep[0];
      if |line| + 1 < |s| { assert s[|line| + 1] == rest[0]; }
      if sep[0] == '\r' { assert sep == "\r"; }
    }
  }

  // ---------------------------------------------------------------- bytes and lines

  /** `data.count(b"\n")` */
  function Newlines(b: seq<byte>): nat {
    if b == [] then 0 else (if b[0] == NEWLINE then 1 else 0) + Newlines(b[1..])
  }

  /** Where the first line feed is, if there is one. */
  function FirstNewline(b: seq<byte>): (n: nat)
    ensures n <= |b|
    ensures n < |b| ==> b[n] == NEWLINE
  {
    if b == [] || b[0] == NEWLINE then 0 else 1 + FirstNewline(b[1..])
  }

  lemma {:induction false} CountFromFirst(b: seq<byte>)
    ensures var n := FirstNewline(b); Newlines(b) == if n < |b| then 1 + Newlines(b[n + 1..]) else 0
  {
    if b != [] && b[0] != NEWLINE {
      CountFromFirst(b[1..]);
      var n := FirstNewline(b);
      if n < |b| {
        assert b[1..][n..] == b[n + 1..];
      }
    }
  }

  /** Bytes cut behind a line feed decode and split independently. */
  lemma LinesSplit(x: seq<byte>, y: seq<byte>)
    ensures SplitLines(Decode(x + [NEWLINE] + y)) == SplitLines(Decode(x) + "\n") + SplitLines(Decode(y))
    ensures |SplitLines(Decode(x) + "\n")| >= 1
  {
    var r := [NEWLINE] + y;
    assert x + [NEWLINE] + y == x + r;
    DecodeSplits(x, r);
    assert r[1..] == y;
    assert Decode(r) == "\n" + Decode(y);
    assert Decode(x) + ("\n" + Decode(y)) == Decode(x) + "\n" + Decode(y);
    SplitAtNewline(Decode(x), Decode(y));
  }

  lemma {:induction false} LinesAtLeast(b: seq<byte>)
    ensures |SplitLines(Decode(b))| >= Newlines(b)
    decreases |b|
  {
    CountFromFirst(b);
    var n := FirstNewline(b);
    if n < |b| {
      assert b == b[..n] + [NEWLINE] + b[n + 1..];
      LinesSplit(b[..n], b[n + 1..]);
      LinesAtLeast(b[n + 1..]);
    }
  }

  /** `all[-n:]` */
  function Last<T>(all: seq<T>, n: int): seq<T> {
    if n > |all| || n == 0 then all
    else if n > 0 then all[|all| - n..]
    else if -n >= |all| then []
    else all[-n..]
  }

  lemma LastIs<T>(all: seq<T>, n: int)
    ensures n >= 1 ==>
      var last := Last(all, n);
      && |last| == (if n < |all| then n else |all|)
      && forall i | 0 <= i < |last| :: last[i] == all[|all| - |last| + i]
    ensures n <= 0 && all == [] ==> Last(all, n) == []
    ensures n == 0 ==> Last(all, n) == all
  {
  }

  lemma LastOfBoth<T>(p: seq<T>, b: seq<T>, n: int)
    requires 1 <= n <= |b|
    ensures Last(p + b, n) == Last(b, n)
  {
  }

  /**
   * A block boundary may fall anywhere, inside a character or between a carriage return
   * and its line feed; with more than `n` line feeds read, the last `n` lines are safe.
   */
  lemma EnoughRead(before: seq<byte>, data: seq<byte>, n: int)
    requires 1 <= n < Newlines(data)
    ensures Last(SplitLines(Decode(data)), n) == Last(SplitLines(Decode(before + data)), n)
  {
    hide SplitLines, Decode, Newlines, FirstNewline, Last;
    CountFromFirst(data);
    var k := FirstNewline(data);
    var x, y := data[..k], data[k + 1..];
    assert data == x + [NEWLINE] + y;
    assert before + data == before + x + [NEWLINE] + y;
    LinesSplit(x, y);
    LinesSplit(before + x, y);
    LinesAtLeast(y);
    LastOfBoth(SplitLines(Decode(x) + "\n"), SplitLines(Decode(y)), n);
    LastOfBoth(SplitLines(Decode(before + x) + "\n"), SplitLines(Decode(y)), n);
  }

  function Mapped(f: string -> string, s: seq<string>): seq<string> {
    seq(|s|, i requires 0 <= i < |s| => f(s[i]))
  }

  lemma NothingRead(data: seq<byte>)
    ensures SplitLines(Decode(data)) == [] <==> data == []
  {
    assert SplitLines("") == [];
    if data != [] { assert Decode(data) != ""; }
  }

  /** `file` is None when it does not exist or cannot be read. */
  method TailFile(file: Option<seq<byte>>, lines: int, scrub: string -> string) returns (tail: seq<string>)
    ensures file.None? ==> tail == []
    ensures file.Some? && lines >= 1 ==>
              var all := SplitLines(Decode(file.value));
              && |tail| == (if lines < |all| then lines else |all|)
              && forall i | 0 <= i < |tail| :: tail[i] == scrub(all[|all| - |tail| + i])
    ensures lines < 0 ==> tail == []
    // Asking for no lines does not give none: the slice is then the whole block.
    ensures lines == 0 ==> (tail == [] <==> file.None? || file.value == [])
  {
    hide SplitLines, Decode, Last;
    assert Newlines([]) == 0;
    hide Newlines;
    if file.None? {
      return [];
    }
    var content := file.value;
    var size := |content|;
    var data: seq<byte> := [];
    while size > 0 && Newlines(data) <= lines
      invariant 0 <= size <= |content| && data == content[size..]
      invariant lines < 0 ==> data == []
      decreases size
    {
      var step := if BLOCK < size then BLOCK else size;
      size := size - step;
      data := content[size..size + step] + data;
    }
    ghost var before := content[..size];
    assert content == before + data;
    if lines >= 1 && size > 0 {
      EnoughRead(before, data, lines);
    }
    assert size == 0 ==> data == content;
    var all := SplitLines(Decode(data));
    tail := Mapped(scrub, Last(all, lines));
    LastIs(all, lines);
    LastIs(SplitLines(Decode(content)), lines);
    NothingRead(data);
  }
}
