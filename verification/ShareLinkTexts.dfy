/** Which texts the link builders accept, refuse and print, by their characters. */
module ShareLinkTexts {
  import opened Prelude
  import opened Text
  import opened PercentEncoding
  import opened ShareLink
  import opened ShareLinkFacts

  // ---------------------------------------------------------------- white space

  /** The code points for which `str.isspace` holds. */
  ghost predicate Blank(c: char) {
    c as int in {9, 10, 11, 12, 13, 28, 29, 30, 31, 32, 133, 160, 5760, 8192, 8193, 8194, 8195, 8196, 8197, 8198,
                 8199, 8200, 8201, 8202, 8232, 8233, 8239, 8287, 12288}
  }

  lemma BlankIsSpace(c: char)
    ensures IsSpace(c) <==> Blank(c)
  {
  }

  ghost predicate AllBlank(s: string) {
    forall c | c in s :: Blank(c)
  }

  ghost predicate SomeBlank(s: string) {
    exists c :: c in s && Blank(c)
  }

  lemma SomeBlankIff(s: string)
    ensures HasSpace(s) <==> SomeBlank(s)
  {
    forall c ensures IsSpace(c) <==> Blank(c) { BlankIsSpace(c); }
    hide Blank, IsSpace;
    if SomeBlank(s) {
      var c :| c in s && Blank(c);
      var i :| 0 <= i < |s| && s[i] == c;
    }
  }

  lemma {:induction false} StripLeftMeans(s: string) returns (i: nat)
    ensures i <= |s| && StripLeft(s) == s[i..] && AllBlank(s[..i]) && (i < |s| ==> !Blank(s[i]))
  {
    if s != "" && IsSpace(s[0]) {
      BlankIsSpace(s[0]);
      i := StripLeftMeans(s[1..]);
      assert s[1..][i..] == s[i + 1..];
      assert s[..i + 1] == [s[0]] + s[1..][..i];
      i := i + 1;
    } else {
      i := 0;
      if s != "" { BlankIsSpace(s[0]); }
    }
  }

  /** Stripping takes away white space at both ends, all of it, and nothing else. */
  lemma {:induction false} StripMeans(s: string) returns (i: nat, j: nat)
    ensures i <= j <= |s| && Strip(s) == s[i..j] && AllBlank(s[..i]) && AllBlank(s[j..])
    ensures i < j ==> !Blank(s[i]) && !Blank(s[j - 1])
    decreases |s|
  {
    var n := |s| - 1;
    if s != "" && IsSpace(s[n]) {
      BlankIsSpace(s[n]);
      i, j := StripMeans(s[..n]);
      assert s[..n][i..j] == s[i..j] && s[..n][..i] == s[..i];
      assert s[j..] == s[..n][j..] + [s[n]];
    } else {
      j := |s|;
      i := StripLeftMeans(s);
      if s != "" { BlankIsSpace(s[n]); }
      assert s[i..] == s[i..j];
      assert s[j..] == "";
    }
  }

  lemma StripOfBlank(s: string)
    ensures Strip(s) == "" <==> AllBlank(s)
    ensures '/' in Strip(s) <==> '/' in s
  {
    hide Blank, Strip;
    var i, j := StripMeans(s);
    assert s == s[..i] + s[i..j] + s[j..];
    if i < j {
      assert s[i] in s;
    }
    assert Blank('/') <==> false by { BlankIsSpace('/'); }
  }

  // ---------------------------------------------------------------- why a link is refused

  /** The first fault of a target, in the order in which the code looks for them. */
  ghost function TargetFault(t: Target): Option<LinkError> {
    if t.account.None? then Some(BadUuid)
    else if t.host == "" then Some(HostMissing)
    else if AllBlank(t.host) then Some(HostEmpty)
    else if SomeBlank(Strip(t.host)) then Some(HostHasSpace)
    else if '/' in t.host then Some(HostIsUrl)
    else if t.port < 1 || t.port > 65535 then Some(BadPort)
    else None
  }

  ghost function ProfileFault(p: RealityProfile): Option<LinkError> {
    if p.publicKey == "" then Some(KeyMissing)
    else if p.serverName == "" then Some(SniMissing)
    else if p.flow != "" && p.flow != "xtls-rprx-vision" then Some(BadFlow)
    else if p.networkAlias != "tcp" && p.networkAlias != "raw" then Some(BadNetwork)
    else None
  }

  ghost function WebSocketFault(p: WebSocketProfile): Option<LinkError> {
    if p.host == "" then Some(HostMissing)
    else if p.path == "" then Some(PathMissing)
    else if SomeBlank(Strip(p.path)) then Some(PathHasSpace)
    else None
  }

  lemma CheckedFault(t: Target)
    ensures match Checked(t)
            case Failure(e) => TargetFault(t) == Some(e)
            case Success(_) => TargetFault(t) == None
  {
    StripOfBlank(t.host);
    SomeBlankIff(Strip(t.host));
    hide HasSpace, SomeBlank, AllBlank, Strip, UuidText;
  }

  lemma PathFault(path: string)
    ensures match NormalisePath(path)
            case Failure(PathMissing) => path == ""
            case Failure(PathHasSpace) => path != "" && SomeBlank(Strip(path))
            case Failure(_) => false
            case Success(_) => path != "" && !SomeBlank(Strip(path))
  {
    NormalisedWhen(path);
    SomeBlankIff(Strip(path));
    hide HasSpace, SomeBlank, Strip;
  }

  /** Each refusal names the first fault there is, and without one the link is printed. */
  lemma RealityRefusedIff(t: Target, p: RealityProfile)
    ensures match BuildRealityUri(t, p)
            case Failure(e) => Some(e) == if TargetFault(t).Some? then TargetFault(t) else ProfileFault(p)
            case Success(_) => TargetFault(t) == None && ProfileFault(p) == None
  {
    CheckedFault(t);
    hide Checked, TargetFault, Uri, RealityParams;
  }

  lemma WebSocketRefusedIff(t: Target, p: WebSocketProfile)
    ensures match BuildWebSocketUri(t, p)
            case Failure(e) => Some(e) == if TargetFault(t).Some? then TargetFault(t) else WebSocketFault(p)
            case Success(_) => TargetFault(t) == None && WebSocketFault(p) == None
  {
    CheckedFault(t);
    PathFault(p.path);
    hide Checked, TargetFault, Uri, WebSocketParams, NormalisePath, SomeBlank, Strip;
  }

  // ---------------------------------------------------------------- which hosts can be read back

  /** The characters a name is made of: letters, digits, and these marks. */
  ghost predicate NameChar(c: char) {
    || 48 <= c as int <= 57 || 65 <= c as int <= 90 || 97 <= c as int <= 122
    || c in "-._~" || c in "!$&'()*+,;="
  }

  lemma NameCharIff(c: char)
    ensures NameChar(c) <==> Unreserved(c) || SubDelim(c)
  {
  }

  lemma {:induction false} RegNameIff(s: string)
    requires '%' !in s
    ensures RegName(s) <==> forall c | c in s :: NameChar(c)
    decreases |s|
  {
    hide NameChar, SubDelim, Unreserved;
    if s != "" {
      assert s == [s[0]] + s[1..];
      NameCharIff(s[0]);
      RegNameIff(s[1..]);
      assert s[0] in s;
      if Escaped(s).Some? { EscapeChars(s); }
      assert forall c :: c in s <==> c == s[0] || c in s[1..];
    }
  }

  /** A host without percent signs or brackets comes back whole exactly when all its characters are name characters. */
  lemma PlainHostCarriedIff(host: string)
    requires '%' !in host && (host == "" || host[0] != '[')
    ensures CanCarry(host, false) <==> forall c | c in host :: NameChar(c)
  {
    RegNameIff(host);
    hide NameChar, RegName;
  }

  /** An escape and a name behind it are a name again, so escaped hosts come back as they were given. */
  lemma EscapedHostIsCarried(a: char, b: char, rest: string)
    requires HexDigit(a).Some? && HexDigit(b).Some? && CanCarry(rest, false) && !Bracketed(rest) && rest != ""
    requires rest[|rest| - 1] != ']'
    ensures CanCarry(['%', a, b] + rest, false)
  {
    var host := ['%', a, b] + rest;
    assert host[3..] == rest && host[|host| - 1] == rest[|rest| - 1];
    assert Escaped(host).Some?;
  }

  /** Addresses of hexadecimal digits, colons and dots are carried, with and without brackets. */
  lemma AddressIsCarried(host: string)
    requires host != "" && forall c | c in host ::
      48 <= c as int <= 57 || 65 <= c as int <= 70 || 97 <= c as int <= 102 || c == ':' || c == '.'
    ensures CanCarry(host, true) && CanCarry("[" + host + "]", false)
    ensures !CanCarry("[]", false)
  {
    assert host[0] in host;
    assert host[|host| - 1] in host;
    var wrapped := "[" + host + "]";
    assert wrapped[1..|wrapped| - 1] == host;
    assert forall c | c in host :: Unreserved(c) || SubDelim(c) || c == ':';
  }

  // ---------------------------------------------------------------- parameters

  lemma {:induction false} KeptJoins(a: Params, b: Params)
    ensures Kept(a + b) == Kept(a) + Kept(b)
  {
    if a == [] {
      assert a + b == b;
    } else {
      assert (a + b)[1..] == a[1..] + b;
      KeptJoins(a[1..], b);
    }
  }

  /** Exactly the parameters without a value are left out of a link, and the rest stay in order. */
  lemma KeptMeans(a: Params, b: Params, p: (string, string))
    ensures Kept(a + [p] + b) == Kept(a) + (if p.1 == "" then [] else [p]) + Kept(b)
    ensures Kept([]) == []
  {
    KeptJoins(a + [p], b);
    KeptJoins(a, [p]);
    assert [p][1..] == [];
    assert [p] + [] == [p];
  }
}
