/** Splitting and printing URLs (basic/url.cpp). */
module Urls {
  import opened Text

  datatype Url = Url(
    protocol: string, user: string, password: string, host: string, port: string, path: string)

  /** The first position from p on where t occurs; the length of s if there is none. */
  function Find(s: string, t: string, p: nat): (i: nat)
    requires p <= |s| && t != ""
    ensures p <= i <= |s| && (i < |s| ==> At(s, i, t))
    ensures forall j :: p <= j < i ==> !At(s, j, t)
    decreases |s| - p
  {
    if p == |s| || At(s, p, t) then p else Find(s, t, p + 1)
  }

  predicate Contains(s: string, t: string) {
    exists i :: 0 <= i <= |s| && At(s, i, t)
  }

  lemma FindIs(s: string, t: string, i: nat)
    requires t != "" && i <= |s| && (i < |s| ==> At(s, i, t)) && forall j: nat :: j < i ==> !At(s, j, t)
    ensures Find(s, t, 0) == i
  {
  }

  /** The part before and after the first separator; the second is None without one. */
  function Cut(s: string, t: string): (r: (string, Option<string>))
    requires t != ""
    ensures r.1.Some? <==> Contains(s, t)
    ensures s == if r.1.Some? then r.0 + t + r.1.value else r.0
  {
    var i := Find(s, t, 0);
    if i < |s| then (s[..i], Some(s[i + |t|..])) else (s, None)
  }

  lemma CutAt(a: string, t: string, b: string)
    requires |t| == 1 && t[0] !in a
    ensures Cut(a + t + b, t) == (a, Some(b))
  {
    var s := a + t + b;
    AtMiddle(a, t, b);
    forall j: nat | j < |a|
      ensures !At(s, j, t)
    {
      assert s[j..j + 1] == [s[j]] && s[j] == a[j];
    }
    FindIs(s, t, |a|);
  }

  lemma CutNone(a: string, t: string)
    requires |t| == 1 && t[0] !in a
    ensures Cut(a, t) == (a, None)
  {
    forall j: nat | j < |a|
      ensures !At(a, j, t)
    {
      assert a[j..j + 1] == [a[j]];
    }
    FindIs(a, t, |a|);
  }

  lemma CutParts(s: string, t: string)
    requires |t| == 1
    ensures t[0] !in Cut(s, t).0
  {
    var i := Find(s, t, 0);
    assert t == [t[0]];
    forall j | 0 <= j < i
      ensures s[j] != t[0]
    {
      assert s[j..j + 1] == [s[j]];
      assert !At(s, j, t);
    }
  }

  lemma CutProtocol(p: string, b: string)
    requires !Contains(p, "://")
    ensures Cut(p + "://" + b, "://") == (p, Some(b))
  {
    var s := p + "://" + b;
    AtMiddle(p, "://", b);
    forall j: nat | j < |p|
      ensures !At(s, j, "://")
    {
      if At(s, j, "://") {
        SeparatorInside(p, b, j);
      }
    }
    FindIs(s, "://", |p|);
  }

  /** The separator cannot overlap its own beginning. */
  lemma SeparatorInside(p: string, b: string, j: nat)
    requires j < |p| && At(p + "://" + b, j, "://")
    ensures At(p, j, "://")
  {
    var s := p + "://" + b;
    assert s[j..j + 3][1] == '/' && s[j..j + 3][2] == '/';
    assert s[j + 1] == '/' && s[j + 2] == '/' && s[|p|] == ':';
    assert p[j..j + 3] == s[j..j + 3];
  }

  lemma CutNoProtocol(s: string)
    requires !Contains(s, "://")
    ensures Cut(s, "://") == (s, None)
  {
  }

  // ---- parsing -------------------------------------------------------------

  function OrEmpty(o: Option<string>): string {
    if o.Some? then o.value else ""
  }

  /** What follows the protocol. */
  function AfterProtocol(s: string): string {
    var (a, b) := Cut(s, "://");
    if b.Some? then b.value else s
  }

  /** What follows the protocol and the user information. */
  function AfterUser(s: string): string {
    var (a, b) := Cut(AfterProtocol(s), "@");
    if b.Some? then b.value else AfterProtocol(s)
  }

  function UserInfo(s: string): string {
    var (a, b) := Cut(AfterProtocol(s), "@");
    if b.Some? then a else ""
  }

  function HostAndPort(s: string): string {
    Cut(AfterUser(s), "/").0
  }

  function Parse(s: string): Url {
    var (protocol, more) := Cut(s, "://");
    var (user, password) := Cut(UserInfo(s), ":");
    var (host, port) := Cut(HostAndPort(s), ":");
    Url(if more.Some? then protocol else "", user, OrEmpty(password), host, OrEmpty(port),
        AfterUser(s)[|HostAndPort(s)|..])
  }

  // ---- printing ------------------------------------------------------------

  function ProtocolText(protocol: string): string {
    if protocol == "" then "" else protocol + "://"
  }

  function PasswordText(password: string): string {
    if password == "" then "" else ":" + password
  }

  function UserText(user: string, password: string): string {
    if user == "" then "" else user + PasswordText(password) + "@"
  }

  function PortText(port: string): string {
    if port == "" then "" else ":" + port
  }

  function Print(u: Url): string {
    ProtocolText(u.protocol) + (UserText(u.user, u.password) + (u.host + PortText(u.port) + u.path))
  }

  // ---- print after parse ---------------------------------------------------

  /** No delimiter stands next to an empty protocol, user, password or port. */
  predicate NoEmptyPart(s: string) {
    && (Contains(s, "://") ==> Cut(s, "://").0 != "")
    && (Contains(AfterProtocol(s), "@") ==> Cut(UserInfo(s), ":").0 != "")
    && (Contains(UserInfo(s), ":") ==> Cut(UserInfo(s), ":").1 != Some(""))
    && (Contains(HostAndPort(s), ":") ==> Cut(HostAndPort(s), ":").1 != Some(""))
  }

  lemma PrintsProtocol(s: string)
    ensures
      var part, u := s[..|s| - |AfterProtocol(s)|], Parse(s);
      && |AfterProtocol(s)| <= |s| && s == part + AfterProtocol(s)
      && |ProtocolText(u.protocol)| <= |part|
      && (ProtocolText(u.protocol) == part <==> (Contains(s, "://") ==> Cut(s, "://").0 != ""))
  {
    var (a, b) := Cut(s, "://");
    if b.Some? {
      assert s[..|s| - |b.value|] == a + "://";
    }
  }

  lemma UserTextOf(info: string)
    ensures
      var (user, password) := Cut(info, ":");
      var text := UserText(user, OrEmpty(password));
      && |text| <= |info + "@"|
      && (text == info + "@" <==> user != "" && password != Some(""))
  {
    hide Cut, Contains;
    var (user, password) := Cut(info, ":");
    var text := UserText(user, OrEmpty(password));
    if user == "" {
      assert text == "";
    } else if password.None? {
      assert user + "" == info;
    } else if password.value == "" {
      assert user + "" == user && |info| == |user| + 1;
      assert |text| == |user| + 1;
    } else {
      Associative(user, ":", password.value);
    }
  }

  lemma PrintsUser(s: string)
    ensures
      var rest, part, u := AfterProtocol(s), AfterProtocol(s)[..|AfterProtocol(s)| - |AfterUser(s)|], Parse(s);
      && |AfterUser(s)| <= |rest| && rest == part + AfterUser(s)
      && |UserText(u.user, u.password)| <= |part|
      && (UserText(u.user, u.password) == part <==>
           && (Contains(rest, "@") ==> Cut(UserInfo(s), ":").0 != "")
           && (Contains(UserInfo(s), ":") ==> Cut(UserInfo(s), ":").1 != Some("")))
  {
    hide Cut, UserText, AfterProtocol, HostAndPort;
    var rest := AfterProtocol(s);
    var (a, b) := Cut(rest, "@");
    UserTextOf(UserInfo(s));
    if b.Some? {
      assert rest[..|rest| - |b.value|] == a + "@";
    } else {
      CutNone("", ":");
      assert UserText("", "") == "" by { NoUserText(); }
    }
  }

  lemma NoUserText()
    ensures UserText("", "") == ""
  {
  }

  lemma HostTextOf(hp: string)
    ensures
      var (host, port) := Cut(hp, ":");
      var text := host + PortText(OrEmpty(port));
      |text| <= |hp| && (text == hp <==> port != Some(""))
  {
    var (host, port) := Cut(hp, ":");
    hide Cut;
    if port.Some? {
      assert hp == host + (":" + port.value);
    }
  }

  lemma PrintsHost(s: string)
    ensures
      var rest, u := AfterUser(s), Parse(s);
      && |u.host + PortText(u.port) + u.path| <= |rest|
      && (u.host + PortText(u.port) + u.path == rest <==>
           (Contains(HostAndPort(s), ":") ==> Cut(HostAndPort(s), ":").1 != Some("")))
  {
    hide Cut, PortText, AfterUser, UserInfo, AfterProtocol, Contains;
    var rest, hp, u := AfterUser(s), HostAndPort(s), Parse(s);
    HostTextOf(hp);
    assert |hp| <= |rest| && rest[..|hp|] == hp by { CutIsPrefix(rest, "/"); }
    assert rest == hp + u.path;
    SameFront(u.host + PortText(u.port), hp, u.path);
  }

  lemma SameFront(a: string, b: string, rest: string)
    ensures a + rest == b + rest <==> a == b
  {
    if a + rest == b + rest {
      assert |a| == |b|;
      assert (a + rest)[..|a|] == a && (b + rest)[..|b|] == b;
    }
  }

  lemma CutIsPrefix(s: string, t: string)
    requires t != ""
    ensures Cut(s, t).0 <= s
  {
  }

  lemma PartsEqual(a: string, b: string, c: string, a': string, b': string, c': string)
    requires |a'| <= |a| && |b'| <= |b| && |c'| <= |c|
    ensures a' + (b' + c') == a + (b + c) <==> a' == a && b' == b && c' == c
  {
    var x, y := a' + (b' + c'), a + (b + c);
    if x == y {
      assert |a'| == |a| && |b'| == |b| && |c'| == |c|;
      assert x[..|a|] == a' && y[..|a|] == a;
      assert x[|a|..][..|b|] == b' && y[|a|..][..|b|] == b;
      assert x[|a|..][|b|..] == c' && y[|a|..][|b|..] == c;
    }
  }

  /** Printing a parsed URL gives the input back if and only if no delimited part is empty. */
  lemma PrintAfterParse(s: string)
    ensures Print(Parse(s)) == s <==> NoEmptyPart(s)
  {
    hide Parse, ProtocolText, UserText, PortText, Cut, AfterProtocol, AfterUser, UserInfo, HostAndPort, Contains;
    PrintsProtocol(s);
    PrintsUser(s);
    PrintsHost(s);
    var u, rest, last := Parse(s), AfterProtocol(s), AfterUser(s);
    PartsEqual(s[..|s| - |rest|], rest[..|rest| - |last|], last,
               ProtocolText(u.protocol), UserText(u.user, u.password), u.host + PortText(u.port) + u.path);
  }

  lemma ProtocolHasSlash(s: string)
    requires Contains(s, "://")
    ensures '/' in s
  {
    var i :| 0 <= i <= |s| && At(s, i, "://");
    assert s[i + 1] == s[i..i + 3][1];
  }

  /** For one: the colon before an empty port is lost. */
  lemma EmptyPortIsLost()
    ensures Print(Parse("host:")) != "host:"
  {
    hide Parse, Print, Cut, Contains;
    var s := "host:";
    if Contains(s, "://") {
      ProtocolHasSlash(s);
    }
    CutNoProtocol(s);
    CutNone(s, "@");
    CutNone(s, "/");
    CutAt("host", ":", "");
    assert "host" + ":" + "" == s;
    PrintAfterParse(s);
  }

  // ---- parse after print ---------------------------------------------------

  /** Components that stay apart when they are printed one after the other. */
  predicate WellFormed(u: Url) {
    && !Contains(u.protocol, "://")
    && (u.protocol == "" ==> !Contains(UserAndHost(u), "://"))
    && ':' !in u.user && '@' !in u.user && '@' !in u.password
    && (u.user == "" ==> u.password == "" && '@' !in HostText(u))
    && ':' !in u.host && '/' !in u.host && '/' !in u.port
    && (u.path == "" || u.path[0] == '/')
  }

  function HostText(u: Url): string {
    u.host + PortText(u.port) + u.path
  }

  function UserAndHost(u: Url): string {
    UserText(u.user, u.password) + HostText(u)
  }

  lemma ProtocolSplits(u: Url)
    requires WellFormed(u)
    ensures AfterProtocol(Print(u)) == UserAndHost(u) && Parse(Print(u)).protocol == u.protocol
  {
    hide WellFormed, UserText, PortText, Cut;
    assert !Contains(u.protocol, "://") && (u.protocol == "" ==> !Contains(UserAndHost(u), "://")) by { Protocols(u); }
    if u.protocol != "" {
      assert Print(u) == u.protocol + "://" + UserAndHost(u);
      CutProtocol(u.protocol, UserAndHost(u));
    } else {
      assert Print(u) == UserAndHost(u);
      CutNoProtocol(Print(u));
    }
  }

  lemma Protocols(u: Url)
    requires WellFormed(u)
    ensures !Contains(u.protocol, "://") && (u.protocol == "" ==> !Contains(UserAndHost(u), "://"))
  {
  }

  lemma UserSplits(u: Url, s: string)
    requires ':' !in u.user && '@' !in u.user && '@' !in u.password
    requires u.user == "" ==> u.password == "" && '@' !in HostText(u)
    requires AfterProtocol(s) == UserAndHost(u)
    ensures AfterUser(s) == HostText(u)
    ensures Parse(s).user == u.user && Parse(s).password == u.password
  {
    hide Cut, HostText, AfterProtocol, HostAndPort;
    var info := u.user + PasswordText(u.password);
    if u.user == "" {
      assert UserAndHost(u) == HostText(u);
      CutNone(HostText(u), "@");
      CutNone("", ":");
    } else {
      assert '@' !in info;
      assert UserAndHost(u) == info + "@" + HostText(u);
      CutAt(info, "@", HostText(u));
      if u.password == "" {
        assert info == u.user;
        CutNone(u.user, ":");
      } else {
        assert info == u.user + ":" + u.password;
        CutAt(u.user, ":", u.password);
      }
    }
  }

  lemma HostSplits(u: Url, s: string)
    requires ':' !in u.host && '/' !in u.host && '/' !in u.port && (u.path == "" || u.path[0] == '/')
    requires AfterUser(s) == HostText(u)
    ensures Parse(s).host == u.host && Parse(s).port == u.port && Parse(s).path == u.path
  {
    hide Cut, AfterUser, UserInfo;
    var hp := u.host + PortText(u.port);
    assert '/' !in hp;
    if u.path == "" {
      assert HostText(u) == hp;
      CutNone(hp, "/");
    } else {
      assert HostText(u) == hp + "/" + u.path[1..];
      CutAt(hp, "/", u.path[1..]);
    }
    assert HostText(u)[|hp|..] == u.path;
    if u.port == "" {
      assert hp == u.host;
      CutNone(u.host, ":");
    } else {
      assert hp == u.host + ":" + u.port;
      CutAt(u.host, ":", u.port);
    }
  }

  /** What a parse yields whose print is the input. */
  lemma ParsedIsWellFormed(s: string)
    requires Print(Parse(s)) == s
    ensures WellFormed(Parse(s))
  {
    PrintAfterParse(s);
    ParsedProtocol(s);
    assert Parse(s).protocol == "" ==> UserAndHost(Parse(s)) == s;
    ParsedUser(s);
    ParsedHost(s);
  }

  lemma ParsedProtocol(s: string)
    requires NoEmptyPart(s)
    ensures !Contains(Parse(s).protocol, "://") && (Parse(s).protocol == "" ==> !Contains(s, "://"))
  {
    hide UserInfo, HostAndPort, AfterUser;
    var i := Find(s, "://", 0);
    if Contains(Parse(s).protocol, "://") {
      var j :| 0 <= j <= |Parse(s).protocol| && At(Parse(s).protocol, j, "://");
      PrefixAt(s, i, j);
    }
  }

  lemma PrefixAt(s: string, i: nat, j: nat)
    requires i <= |s| && At(s[..i], j, "://")
    ensures At(s, j, "://") && j < i
  {
    assert s[..i][j..j + 3] == s[j..j + 3];
  }

  lemma ParsedUser(s: string)
    requires NoEmptyPart(s) && Print(Parse(s)) == s
    ensures
      var u := Parse(s);
      && ':' !in u.user && '@' !in u.user && '@' !in u.password
      && (u.user == "" ==> u.password == "" && '@' !in HostText(u))
  {
    hide Cut, HostAndPort, AfterProtocol, Print;
    var rest := AfterProtocol(s);
    CutParts(rest, "@");
    CutParts(UserInfo(s), ":");
    var (user, password) := Cut(UserInfo(s), ":");
    assert '@' !in UserInfo(s);
    assert UserInfo(s) == if password.Some? then user + ":" + password.value else user;
    if Parse(s).user == "" {
      PrintsHost(s);
      assert HostText(Parse(s)) == AfterUser(s);
      assert !Contains(rest, "@");
    }
  }

  lemma ParsedHost(s: string)
    ensures
      var u := Parse(s);
      && ':' !in u.host && '/' !in u.host && '/' !in u.port
      && (u.path == "" || u.path[0] == '/')
  {
    hide Cut, AfterUser, UserInfo;
    var rest, hp := AfterUser(s), HostAndPort(s);
    CutParts(rest, "/");
    CutParts(hp, ":");
    var (host, port) := Cut(hp, ":");
    assert hp == if port.Some? then host + ":" + port.value else host;
    var (a, b) := Cut(rest, "/");
    assert b.Some? ==> rest[|hp|..] == "/" + b.value;
  }

  /** Parsing a printed URL gives all six components back if and only if they are well-formed. */
  lemma ParseAfterPrint(u: Url)
    ensures Parse(Print(u)) == u <==> WellFormed(u)
  {
    if WellFormed(u) {
      ProtocolSplits(u);
      UserSplits(u, Print(u));
      HostSplits(u, Print(u));
    } else if Parse(Print(u)) == u {
      ParsedIsWellFormed(Print(u));
    }
  }

  /** For one: a URL with all six components. */
  lemma AllComponents()
    ensures Parse("a://b:c@d:8/f") == Url("a", "b", "c", "d", "8", "/f")
  {
    hide Parse;
    var u := Url("a", "b", "c", "d", "8", "/f");
    if Contains(u.protocol, "://") {
      ProtocolHasSlash(u.protocol);
    }
    assert WellFormed(u);
    assert Print(u) == "a://b:c@d:8/f";
    ParseAfterPrint(u);
  }

  // ---- the code ------------------------------------------------------------

  lemma AtShift(s: string, p: nat, j: nat, t: string)
    requires p <= |s|
    ensures At(s[p..], j, t) <==> At(s, p + j, t)
  {
    if p + j + |t| <= |s| {
      assert s[p..][j..j + |t|] == s[p + j..p + j + |t|];
    }
  }

  /** The first occurrence from a position on is the first one in the rest of the string. */
  lemma FindFrom(s: string, t: string, p: nat)
    requires p <= |s| && t != ""
    ensures Find(s[p..], t, 0) == Find(s, t, p) - p
  {
    hide Find, At;
    var i := Find(s, t, p);
    forall j: nat | j < i - p
      ensures !At(s[p..], j, t)
    {
      AtShift(s, p, j, t);
    }
    AtShift(s, p, i - p, t);
    FindIs(s[p..], t, i - p);
  }

  /** Cutting the rest of a string is searching from a position. */
  lemma CutFrom(s: string, t: string, p: nat)
    requires p <= |s| && t != ""
    ensures
      var i := Find(s, t, p);
      Cut(s[p..], t) == if i < |s| then (s[p..i], Some(s[i + |t|..])) else (s[p..], None)
  {
    hide Find, At;
    var i := Find(s, t, p);
    FindFrom(s, t, p);
    if i < |s| {
      assert s[p..][..i - p] == s[p..i];
      OccurrenceFits(s, i, t);
      assert s[p..][i - p + |t|..] == s[i + |t|..];
    }
  }

  lemma OccurrenceFits(s: string, i: nat, t: string)
    requires At(s, i, t)
    ensures i + |t| <= |s|
  {
  }

  method Halves(s: string) returns (a: string, b: string)
    ensures (a, b) == (Cut(s, ":").0, OrEmpty(Cut(s, ":").1))
  {
    var pos3 := Find(s, ":", 0);
    if pos3 < |s| {
      a, b := s[..pos3], s[pos3 + 1..];
    } else {
      a, b := s, "";
    }
  }

  method SkipProtocol(url: string) returns (protocol: string, pos: nat)
    ensures pos <= |url| && url[pos..] == AfterProtocol(url) && protocol == Parse(url).protocol
  {
    hide UserInfo, HostAndPort, AfterUser;
    pos := Find(url, "://", 0);
    if pos < |url| {
      protocol, pos := url[..pos], pos + 3;
    } else {
      protocol, pos := "", 0;
    }
  }

  method SkipUser(url: string, from: nat) returns (user: string, password: string, pos: nat)
    requires from <= |url| && url[from..] == AfterProtocol(url)
    ensures pos <= |url| && url[pos..] == AfterUser(url)
    ensures user == Parse(url).user && password == Parse(url).password
  {
    hide Cut, Find, AfterProtocol, HostAndPort;
    var pos2 := Find(url, "@", from);
    CutFrom(url, "@", from);
    if pos2 < |url| {
      user, password := Halves(url[from..pos2]);
      pos := pos2 + 1;
    } else {
      CutNone("", ":");
      user, password, pos := "", "", from;
    }
  }

  /** The constructor, advancing a position through the input. */
  method ParseUrl(url: string) returns (u: Url)
    ensures u == Parse(url)
  {
    hide Cut, Find, AfterProtocol, UserInfo, AfterUser;
    var protocol, pos := SkipProtocol(url);
    var user, password;
    user, password, pos := SkipUser(url, pos);
    var pos2 := Find(url, "/", pos);
    CutFrom(url, "/", pos);
    assert url[pos..pos2] == HostAndPort(url);
    var host, port := Halves(url[pos..pos2]);
    assert url[pos..][pos2 - pos..] == url[pos2..];
    u := Url(protocol, user, password, host, port, url[pos2..]);
  }
}
