/** A canonical object is read back from its printed form, field by field. */
module UrlRoundTrip {
  import opened Wrappers
  import opened Text
  import opened UrlMachine
  import opened UrlInvariant
  import opened UrlScan
  import opened UrlAuthority
  import opened UrlCanonical
  import opened UrlBorrow

  lemma Piece(x: string, y: string, z: string)
    ensures Slice(x + y + z, |x|, |x| + |y|) == y
    ensures Slice(x + y + z, |x| + |y|, |x + y + z|) == z
  {}

  // ---------- trimming ----------

  lemma TrimSame(s: string)
    requires s == "" || (!IsTrimmed(s[0]) && !IsTrimmed(s[|s| - 1]))
    ensures Trim(s) == s
  {}

  // ---------- the tail ----------

  /** From the '#' at f to the end. */
  lemma FragmentRead(input: string, ov: Option<State>, base: Option<Url>, m: Config, f: int)
    requires m.state == Fragment && m.cursor == f + 1 && !m.u.invalid && m.u.fragment == "#"
    requires 0 <= f < |input| && GoodFragment(Slice(input, f, |input|))
    ensures Run(input, ov, base, m) == Done(m.u.(fragment := Slice(input, f, |input|)))
  {
    hide Run;
    FragmentScan(input, ov, base, m);
    var s := Slice(input, f, |input|);
    assert s[1..] == Slice(input, f + 1, |input|);
    assert forall i :: 0 <= i < |s[1..]| ==> s[1..][i] == s[i + 1];
    SqueezeSame(s[1..]);
    assert s == "#" + s[1..];
  }

  /** From the '?' at q to the end; the fragment, if any, starts at f. */
  lemma QueryRead(input: string, base: Option<Url>, m: Config, q: int, f: int)
    requires m.state == Query && m.cursor == q + 1 && !m.u.invalid && m.u.query == "?" && m.u.fragment == ""
    requires 0 <= q < f <= |input| && GoodQuery(Slice(input, q, f)) && GoodFragment(Slice(input, f, |input|))
    ensures Run(input, None, base, m) ==
            Done(m.u.(query := Slice(input, q, f), fragment := Slice(input, f, |input|)))
  {
    hide Run, Slice, GoodQuery, GoodFragment, QueryPlain;
    QueryPieces(input, q, f);
    QueryScan(input, None, base, m, f);
    QueryTail(input, base, m.(cursor := f, u := m.u.(query := Slice(input, q, f))));
  }

  lemma QueryPieces(input: string, q: int, f: int)
    requires 0 <= q < f <= |input| && GoodQuery(Slice(input, q, f))
    ensures Slice(input, q, f) == "?" + Slice(input, q + 1, f)
    ensures forall i :: q + 1 <= i < f ==> QueryPlain(input[i])
  {
    hide QueryPlain;
    var s := Slice(input, q, f);
    assert forall i :: q + 1 <= i < f ==> s[i - q] == input[i];
  }

  /** From the end of the query on. */
  lemma QueryTail(input: string, base: Option<Url>, n: Config)
    requires n.state == Query && 0 <= n.cursor <= |input| && !n.u.invalid && n.u.fragment == ""
    requires GoodFragment(Slice(input, n.cursor, |input|))
    ensures Run(input, None, base, n) == Done(n.u.(fragment := Slice(input, n.cursor, |input|)))
  {
    if n.cursor == |input| {
      EndRound(input, None, base, n);
    } else {
      assert input[n.cursor] == '#' by { assert Slice(input, n.cursor, |input|)[0] == input[n.cursor]; }
      var o := n.(state := Fragment, cursor := n.cursor + 1, u := n.u.(fragment := "#"));
      Round(input, None, base, n, o);
      FragmentRead(input, None, base, o, n.cursor);
    }
    hide Run;
  }

  /** Query and fragment as printed: empty, or with their marks. */
  predicate TailAt(input: string, q: int, f: int) {
    0 <= q <= f <= |input| && GoodQuery(Slice(input, q, f)) && GoodFragment(Slice(input, f, |input|))
  }

  lemma TailRead(input: string, base: Option<Url>, m: Config, u: Url, q: int, f: int)
    requires m.state == RelativePath && !u.invalid && TailAt(input, q, f)
    requires u.query == "" && u.fragment == ""
    ensures PathEnds(None, At(input, q))
    ensures Run(input, None, base, AfterPath(m, q + 1, At(input, q), u)) ==
            Done(u.(query := Slice(input, q, f), fragment := Slice(input, f, |input|)))
  {
    var n := AfterPath(m, q + 1, At(input, q), u);
    if q < f {
      assert Slice(input, q, f)[0] == input[q];
      hide Run, GoodQuery, GoodFragment;
      QueryRead(input, base, n, q, f);
    } else if f < |input| {
      assert Slice(input, f, |input|)[0] == input[f];
      hide Run, GoodQuery, GoodFragment;
      FragmentRead(input, None, base, n, f);
    } else {
      assert !InLoop(input, n);
    }
  }

  // ---------- the path ----------

  lemma GoodFirst(path: seq<string>)
    requires GoodPath(path) && path != []
    ensures GoodSegment(path[0]) && GoodPath(path[1..])
  {}

  lemma PushNone(file: bool, path: seq<string>)
    ensures PushSegments(file, path, []) == path
  {}

  lemma {:induction false} PushSegmentsSame(file: bool, path: seq<string>, segments: seq<string>)
    requires GoodPath(segments)
    requires file && path == [] && segments != [] ==> !IsPipeDrive(segments[0])
    ensures PushSegments(file, path, segments) == path + segments
    decreases |segments|
  {
    hide PushSegment, PushSegments, GoodPath, GoodSegment, IsPipeDrive;
    PushNone(file, path);
    if segments != [] {
      GoodFirst(segments);
      PushFirst(file, path, segments);
      PushGood(file, path, segments[0], |segments| > 1);
      PushSegmentsSame(file, path + [segments[0]], segments[1..]);
      assert path + [segments[0]] + segments[1..] == path + segments;
    } else {
      assert path + segments == path;
    }
  }

  /** A printed path, query and fragment: from the slash at e, with the path up to q and the
      query up to f. */
  predicate Printed(input: string, e: int, q: int, f: int, path: seq<string>) {
    && 0 <= e < q && TailAt(input, q, f) && input[e] == '/'
    && path != [] && GoodPath(path) && Slice(input, e + 1, q) == Join(path, '/')
  }

  lemma PrintedFacts(input: string, i: int, q: int, f: int, path: seq<string>)
    requires Printed(input, i, q, f, path)
    ensures 0 <= i < q <= |input| && input[i] == '/' && path != [] && GoodPath(path) && TailAt(input, q, f)
    ensures PathEnds(None, At(input, q)) && Slice(input, i + 1, q) == Join(path, '/')
  {
    hide GoodPath, Join;
  }

  lemma PathRead(input: string, base: Option<Url>, m: Config, q: int, f: int, path: seq<string>)
    requires m.state == RelativePathStart && m.buffer == "" && !m.u.invalid && Bare(m.u)
    requires Printed(input, m.cursor, q, f, path)
    requires IsFile(m.u.scheme) ==> !IsPipeDrive(path[0])
    ensures Run(input, None, base, m) ==
            Done(m.u.(path := path, query := Slice(input, q, f), fragment := Slice(input, f, |input|)))
  {
    hide Run, IsPipeDrive, TailAt, GoodPath, Slice, Join, AfterPath;
    PrintedFacts(input, m.cursor, q, f, path);
    SegmentsBack(input, base, m, q, path);
    TailRead(input, base, m.(state := RelativePath, cursor := m.cursor + 1), m.u.(path := path), q, f);
  }

  /** Good segments are read back as the path. */
  lemma SegmentsBack(input: string, base: Option<Url>, m: Config, q: int, path: seq<string>)
    requires m.state == RelativePathStart && m.buffer == "" && !m.u.invalid && m.u.path == []
    requires 0 <= m.cursor < q <= |input| && input[m.cursor] == '/' && path != [] && GoodPath(path)
    requires PathEnds(None, At(input, q)) && Slice(input, m.cursor + 1, q) == Join(path, '/')
    requires IsFile(m.u.scheme) ==> !IsPipeDrive(path[0])
    ensures var n := m.(state := RelativePath, cursor := m.cursor + 1);
            Run(input, None, base, m) ==
            Run(input, None, base, AfterPath(n, q + 1, At(input, q), m.u.(path := path)))
  {
    hide Run, IsPipeDrive, GoodPath, Slice, Join, PathAhead, AfterPath, PushSegments, PathEnds;
    var n := m.(state := RelativePath, cursor := m.cursor + 1);
    PathStartRound(input, None, base, m);
    AheadOf(input, n, q, path);
    PushSegmentsSame(IsFile(m.u.scheme), [], path);
    assert [] + path == path;
    PathScan(input, None, base, n, q, path);
  }

  lemma AheadOf(input: string, m: Config, q: int, path: seq<string>)
    requires m.state == RelativePath && m.buffer == "" && !m.u.invalid && 0 <= m.cursor <= q <= |input|
    requires PathEnds(None, At(input, q)) && path != [] && GoodPath(path)
    requires Slice(input, m.cursor, q) == Join(path, '/')
    ensures PathAhead(input, None, m, q, path)
  {
    assert forall i :: 0 <= i < |path| ==> GoodSegment(path[i]);
  }

  // ---------- host and port ----------

  /** host with its port, as printed. */
  function WithPort(host: string, port: string): string {
    if port != "" then host + ":" + port else host
  }

  /** A host that the host state reads back whole. */
  predicate PlainHost(host: string) { host != "" && GoodHost(host) && ColonsBracketed(host) }

  lemma HostStateRead(input: string, ov: Option<State>, base: Option<Url>, m: Config, host: string)
    requires m.state == Host || m.state == Hostname
    requires m.buffer == "" && !m.seenBracket && !m.u.invalid
    requires 0 <= m.cursor && m.cursor + |host| <= |input| && Slice(input, m.cursor, m.cursor + |host|) == host
    requires AllHost(host) && ColonsBracketed(host)
    ensures Run(input, ov, base, m) ==
            Run(input, ov, base, m.(cursor := m.cursor + |host|, buffer := host, seenBracket := OpenBracket(host)))
  {
    hide Run;
    forall i | m.cursor <= i < m.cursor + |host| ensures HostChar(input[i]) {
      assert host[i - m.cursor] == input[i];
    }
    assert "" + host == host;
    HostScan(input, ov, base, m, m.cursor + |host|);
  }

  /** The round in which the host ends at a slash. */
  lemma HostSlashRound(input: string, base: Option<Url>, m: Config)
    requires m.state == Host && !m.u.invalid && 0 <= m.cursor < |input| && input[m.cursor] == '/'
    requires m.buffer != "" && Lower(m.buffer) == m.buffer
    ensures Run(input, None, base, m) ==
            Run(input, None, base, m.(state := RelativePathStart, buffer := "", u := m.u.(host := m.buffer)))
  {
    Round(input, None, base, m, m.(state := RelativePathStart, buffer := "", u := m.u.(host := m.buffer)));
  }

  lemma HostColonRound(input: string, ov: Option<State>, base: Option<Url>, m: Config)
    requires m.state == Host && !m.u.invalid && 0 <= m.cursor < |input| && input[m.cursor] == ':' && !m.seenBracket
    requires m.buffer != "" && Lower(m.buffer) == m.buffer && ov != Some(Hostname)
    ensures Run(input, ov, base, m) ==
            Run(input, ov, base, m.(state := Port, cursor := m.cursor + 1, buffer := "", u := m.u.(host := m.buffer)))
  {
    Round(input, ov, base, m, m.(state := Port, cursor := m.cursor + 1, buffer := "", u := m.u.(host := m.buffer)));
  }

  /** A port as printed, up to its end. */
  lemma PortStateRead(input: string, ov: Option<State>, base: Option<Url>, m: Config, port: string)
    requires m.state == Port && m.buffer == "" && !m.u.invalid && GoodPort(port)
    requires 0 <= m.cursor && m.cursor + |port| <= |input| && Slice(input, m.cursor, m.cursor + |port|) == port
    ensures Run(input, ov, base, m) == Run(input, ov, base, m.(cursor := m.cursor + |port|, buffer := port))
  {
    hide Run, ParseNat, Decimal;
    forall i | m.cursor <= i < m.cursor + |port| ensures Digit(input[i]) {
      assert port[i - m.cursor] == input[i];
    }
    assert "" + port == port;
    PortScan(input, ov, base, m, m.cursor + |port|);
  }

  lemma PortSlashRound(input: string, base: Option<Url>, m: Config)
    requires m.state == Port && !m.u.invalid && 0 <= m.cursor < |input| && input[m.cursor] == '/'
    requires m.buffer != "" && GoodPort(m.buffer) && DefaultPort(m.u.scheme) != Some(ParseNat(m.buffer))
    ensures Run(input, None, base, m) ==
            Run(input, None, base, m.(state := RelativePathStart, buffer := "", u := m.u.(port := m.buffer)))
  {
    hide ParseNat, Decimal, DefaultPort;
    Round(input, None, base, m, m.(state := RelativePathStart, buffer := "", u := m.u.(port := m.buffer)));
  }

  lemma HostPieces(input: string, h: int, e: int, host: string, port: string)
    requires 0 <= h <= e <= |input| && Slice(input, h, e) == WithPort(host, port)
    ensures var k := h + |host|;
            && k <= e && Slice(input, h, k) == host
            && (port == "" ==> k == e)
            && (port != "" ==> k < e && input[k] == ':' && k + 1 + |port| == e && Slice(input, k + 1, e) == port)
  {
    var k := h + |host|;
    var s := Slice(input, h, e);
    assert s[..|host|] == host;
    assert Slice(input, h, k) == s[..|host|];
    if port != "" {
      assert s[|host|] == ':';
      assert s[|host| + 1..] == port;
      assert Slice(input, k + 1, e) == s[|host| + 1..];
    }
  }

  /** A port that is stored as read: in shortest form, and not the scheme's default. */
  predicate OwnPort(scheme: string, port: string) {
    port != "" && GoodPort(port) && DefaultPort(scheme) != Some(ParseNat(port))
  }

  lemma PortRead(input: string, base: Option<Url>, m: Config, host: string, port: string)
    requires m.state == Host && m.buffer == host && !m.seenBracket && !m.u.invalid
    requires host != "" && Lower(host) == host && OwnPort(m.u.scheme, port)
    requires 0 <= m.cursor && m.cursor + 1 + |port| < |input|
    requires input[m.cursor] == ':' && input[m.cursor + 1 + |port|] == '/'
    requires Slice(input, m.cursor + 1, m.cursor + 1 + |port|) == port
    ensures Run(input, None, base, m) ==
            Run(input, None, base, m.(state := RelativePathStart, cursor := m.cursor + 1 + |port|, buffer := "",
                                      u := m.u.(host := host, port := port)))
  {
    hide Run, ParseNat, Decimal, DefaultPort, Slice, Lower;
    HostColonRound(input, None, base, m);
    var n := m.(state := Port, cursor := m.cursor + 1, buffer := "", u := m.u.(host := host));
    PortStateRead(input, None, base, n, port);
    PortSlashRound(input, base, n.(cursor := n.cursor + |port|, buffer := port));
  }

  /** At a host as printed. */
  predicate HostAhead(input: string, m: Config, host: string) {
    && m.state == Host && m.buffer == "" && !m.seenBracket && !m.u.invalid && PlainHost(host)
    && 0 <= m.cursor && m.cursor + |host| < |input| && Slice(input, m.cursor, m.cursor + |host|) == host
  }

  lemma HostThenSlash(input: string, base: Option<Url>, m: Config, host: string)
    requires HostAhead(input, m, host) && input[m.cursor + |host|] == '/'
    ensures Run(input, None, base, m) ==
            Run(input, None, base, m.(state := RelativePathStart, cursor := m.cursor + |host|,
                                      seenBracket := OpenBracket(host), u := m.u.(host := host)))
  {
    hide Run, OpenBracket, ColonsBracketed, AllHost;
    HostStateRead(input, None, base, m, host);
    HostSlashRound(input, base, m.(cursor := m.cursor + |host|, buffer := host, seenBracket := OpenBracket(host)));
  }

  lemma HostThenPort(input: string, base: Option<Url>, m: Config, host: string, port: string)
    requires HostAhead(input, m, host) && !OpenBracket(host) && OwnPort(m.u.scheme, port)
    requires var k := m.cursor + |host|;
             && k + 1 + |port| < |input| && input[k] == ':' && input[k + 1 + |port|] == '/'
             && Slice(input, k + 1, k + 1 + |port|) == port
    ensures Run(input, None, base, m) ==
            Run(input, None, base, m.(state := RelativePathStart, cursor := m.cursor + |host| + 1 + |port|,
                                      u := m.u.(host := host, port := port)))
  {
    hide Run, OpenBracket, ColonsBracketed, AllHost, OwnPort, Slice;
    HostStateRead(input, None, base, m, host);
    PortRead(input, base, m.(cursor := m.cursor + |host|, buffer := host), host, port);
  }

  lemma HostIsAhead(input: string, m: Config, host: string)
    requires m.state == Host && m.buffer == "" && !m.seenBracket && !m.u.invalid && PlainHost(host)
    requires 0 <= m.cursor && m.cursor + |host| < |input| && Slice(input, m.cursor, m.cursor + |host|) == host
    ensures HostAhead(input, m, host)
  {
    hide PlainHost, Slice;
  }

  /** Host and port as printed, up to the slash at e. */
  lemma HostRead(input: string, base: Option<Url>, m: Config, e: int, host: string, port: string)
    requires m.state == Host && m.buffer == "" && !m.seenBracket && !m.u.invalid && m.u.port == ""
    requires 0 <= m.cursor <= e < |input| && input[e] == '/' && Slice(input, m.cursor, e) == WithPort(host, port)
    requires PlainHost(host)
    requires port != "" ==> !OpenBracket(host) && OwnPort(m.u.scheme, port)
    ensures Run(input, None, base, m) ==
            Run(input, None, base, m.(state := RelativePathStart, cursor := e, seenBracket := OpenBracket(host),
                                      u := m.u.(host := host, port := port)))
  {
    hide Run, OpenBracket, PlainHost, HostAhead, Slice, WithPort, OwnPort;
    HostPieces(input, m.cursor, e, host, port);
    HostIsAhead(input, m, host);
    if port == "" { HostThenSlash(input, base, m, host); }
    else { HostThenPort(input, base, m, host, port); }
  }

  // ---------- user information ----------

  lemma {:induction false} NameRead(name: string)
    requires GoodUser(name)
    ensures UserInfo("", None, name) == (name, None)
    decreases |name|
  {
    if name != "" {
      var k := |name| - 1;
      NameRead(name[..k]);
      assert name == name[..k] + [name[k]];
    }
  }

  lemma {:induction false} PasswordRead(name: string, pass: string)
    requires GoodUser(name) && GoodPassword(Some(pass))
    ensures UserInfo("", None, name + ":" + pass) == (name, Some(pass))
    decreases |pass|
  {
    var s := name + ":" + pass;
    var k := |s| - 1;
    if pass == "" {
      assert s[..k] == name;
      NameRead(name);
    } else {
      assert s[..k] == name + ":" + pass[..|pass| - 1];
      PasswordRead(name, pass[..|pass| - 1]);
      assert pass == pass[..|pass| - 1] + [s[k]];
    }
  }

  /** The user information without its '@'. */
  function UserText(u: Url): string {
    u.username + (if u.password.Some? then ":" + u.password.value else "")
  }

  lemma UserRead(u: Url)
    requires GoodUser(u.username) && GoodPassword(u.password)
    ensures UserInfo("", None, UserText(u)) == (u.username, u.password)
    ensures '@' !in UserText(u) && forall i :: 0 <= i < |UserText(u)| ==> !IsDelimiter(UserText(u)[i])
  {
    if u.password.Some? {
      PasswordRead(u.username, u.password.value);
      assert UserText(u) == u.username + ":" + u.password.value;
    } else {
      NameRead(u.username);
      assert UserText(u) == u.username;
    }
  }

  lemma NoAt(t: string)
    requires '@' !in t
    ensures Find(t, '@') == |t| && HostStart(t) == 0
    ensures forall n, p, seen :: ReadUser(n, p, seen, t) == (n, p)
  {
    assert forall i :: 0 <= i < |t| ==> t[i] in t;
  }

  lemma UserThenAt(x: string, rest: string)
    requires '@' !in x && '@' !in rest
    ensures HostStart(x + "@" + rest) == |x| + 1
    ensures ReadUser("", None, false, x + "@" + rest) == UserInfo("", None, x)
  {
    hide Find, UserInfo;
    var t := x + "@" + rest;
    NoAt(rest);
    FindPrefix(x, '@', rest);
    assert t[..|x|] == x && t[|x| + 1..] == rest;
  }

  lemma CredentialsText(u: Url)
    ensures Credentials(u) == if u.username != "" || u.password.Some? then UserText(u) + "@" else ""
  {}

  /** An authority as printed: what is read before its host, and where the host starts. */
  lemma CredentialsRead(u: Url, rest: string)
    requires GoodUser(u.username) && GoodPassword(u.password) && '@' !in rest
    ensures HostStart(Credentials(u) + rest) == |Credentials(u)|
    ensures ReadUser("", None, false, Credentials(u) + rest) == (u.username, u.password)
  {
    hide Credentials, UserText, UserInfo, HostStart, ReadUser, GoodUser, GoodPassword, Find;
    CredentialsText(u);
    if u.username != "" || u.password.Some? {
      UserRead(u);
      UserThenAt(UserText(u), rest);
    } else {
      NoAt(rest);
      assert Credentials(u) + rest == rest;
    }
  }

  // ---------- the scheme ----------

  lemma SchemeStartRound(input: string, base: Option<Url>, u: Url)
    requires input != "" && Alpha(input[0]) && !u.invalid
    ensures Parse(input, None, base, u) ==
            Run(input, None, base, Config(Scheme, 1, [LowerChar(input[0])], false, false, u))
  {
    Round(input, None, base, Start(None, u), Config(Scheme, 1, [LowerChar(input[0])], false, false, u));
  }

  lemma ColonRound(input: string, base: Option<Url>, m: Config, n: Config)
    requires m.state == Scheme && 0 <= m.cursor < |input| && input[m.cursor] == ':' && !m.u.invalid
    requires StepScheme(None, base, m, Some(':')) == Next(n)
    ensures Run(input, None, base, m) == Run(input, None, base, n)
  {
    hide StepScheme;
    Round(input, None, base, m, n);
  }

  /** The scheme and its colon. */
  lemma SchemeRead(input: string, base: Option<Url>, u: Url, scheme: string, n: Config)
    requires GoodScheme(scheme) && |scheme| < |input| && input[..|scheme|] == scheme && input[|scheme|] == ':'
    requires !u.invalid
    requires StepScheme(None, base, Config(Scheme, |scheme|, scheme, false, false, u), Some(':')) == Next(n)
    ensures Parse(input, None, base, u) == Run(input, None, base, n)
  {
    assert input[0] == scheme[0];
    SchemeStartRound(input, base, u);
    assert forall i :: 0 <= i < |scheme| ==> input[i] == scheme[i];
    var m := Config(Scheme, 1, [LowerChar(input[0])], false, false, u);
    SchemeScan(input, None, base, m, |scheme|);
    assert m.buffer + Lower(Slice(input, 1, |scheme|)) == scheme;
    hide StepScheme, Run;
    ColonRound(input, base, Config(Scheme, |scheme|, scheme, false, false, u), n);
  }

  // ---------- the layout of a printed object ----------

  function AuthorityText(u: Url): string { Credentials(u) + WithPort(u.host, u.port) }

  /** Where the parts of a printed hierarchical URL stand. */
  predicate Layout(s: string, u: Url, a: int, e: int, q: int, f: int) {
    && |u.scheme| + 3 == a <= e < |s|
    && s[..|u.scheme|] == u.scheme && s[|u.scheme|] == ':'
    && s[|u.scheme| + 1] == '/' && s[|u.scheme| + 2] == '/'
    && Slice(s, a, e) == AuthorityText(u)
    && e < q <= f <= |s| && s[e] == '/' && Slice(s, e + 1, q) == Join(u.path, '/')
    && Slice(s, q, f) == u.query && Slice(s, f, |s|) == u.fragment
  }

  lemma Assoc(x: string, y: string, z: string)
    ensures x + (y + z) == x + y + z
  {}

  /** The sum of the parts in order, however they are grouped. */
  lemma HrefParts(scheme: string, auth: string, path: string, query: string, fragment: string)
    ensures scheme + ":" + ("//" + auth) + ("/" + path) + query + fragment ==
            scheme + "://" + auth + "/" + path + query + fragment
  {
    Assoc(scheme + ":", "//", auth);
    Assoc(scheme, ":", "//");
    assert ":" + "//" == "://";
    Assoc(scheme + "://" + auth, "/", path);
  }

  lemma HrefText(u: Url, text: string)
    requires !u.invalid && u.relative
    ensures Href(u, text) ==
            u.scheme + "://" + AuthorityText(u) + "/" + Join(u.path, '/') + u.query + u.fragment
  {
    hide Join, Credentials;
    assert HostText(u) == WithPort(u.host, u.port);
    Assoc("//", Credentials(u), WithPort(u.host, u.port));
    HrefParts(u.scheme, AuthorityText(u), Join(u.path, '/'), u.query, u.fragment);
  }

  lemma HeadPieces(scheme: string, rest: string)
    ensures var s := scheme + "://" + rest;
            && s[..|scheme|] == scheme && s[|scheme|] == ':'
            && s[|scheme| + 1] == '/' && s[|scheme| + 2] == '/'
  {}

  /** The printed text up to the slash before the path. */
  lemma LayoutFront(scheme: string, auth: string, path: string, query: string, fragment: string)
    ensures var s, a := scheme + "://" + auth + "/" + path + query + fragment, |scheme| + 3;
      && a + |auth| < |s| && s[..|scheme|] == scheme && s[|scheme|] == ':'
      && s[|scheme| + 1] == '/' && s[|scheme| + 2] == '/'
      && Slice(s, a, a + |auth|) == auth && s[a + |auth|] == '/'
  {
    hide Slice;
    var head := scheme + "://";
    var rest := "/" + path + (query + fragment);
    Assoc(head + auth + "/" + path, query, fragment);
    Assoc(head + auth, "/", path);
    Assoc(head + auth, "/" + path, query + fragment);
    Assoc(head, auth, rest);
    HeadPieces(scheme, auth + rest);
    Piece(head, auth, rest);
  }

  /** And from there on. */
  lemma LayoutBack(front: string, path: string, query: string, fragment: string)
    ensures var s, q := front + path + query + fragment, |front| + |path|;
      && Slice(s, |front|, q) == path && Slice(s, q, q + |query|) == query && Slice(s, q + |query|, |s|) == fragment
  {
    hide Slice;
    Assoc(front + path, query, fragment);
    Piece(front, path, query + fragment);
    Piece(front + path, query, fragment);
  }

  lemma LayoutParts(s: string, u: Url, auth: string, path: string)
    requires s == u.scheme + "://" + auth + "/" + path + u.query + u.fragment
    requires auth == AuthorityText(u) && path == Join(u.path, '/')
    ensures var a := |u.scheme| + 3;
      var e := a + |auth|;
      var q := e + 1 + |path|;
      Layout(s, u, a, e, q, q + |u.query|)
  {
    hide Join, AuthorityText, Slice;
    LayoutFront(u.scheme, auth, path, u.query, u.fragment);
    assert |u.scheme + "://" + auth + "/"| == |u.scheme| + 3 + |auth| + 1;
    LayoutBack(u.scheme + "://" + auth + "/", path, u.query, u.fragment);
  }

  lemma HrefLayout(u: Url, text: string) returns (a: int, e: int, q: int, f: int)
    requires !u.invalid && u.relative
    ensures Layout(Href(u, text), u, a, e, q, f)
  {
    HrefText(u, text);
    var auth, path := AuthorityText(u), Join(u.path, '/');
    hide Join, AuthorityText, Href, Slice, Layout;
    a := |u.scheme| + 3;
    e := a + |auth|;
    q := e + 1 + |path|;
    f := q + |u.query|;
    LayoutParts(Href(u, text), u, auth, path);
  }

  // ---------- hierarchical URLs other than file ----------

  lemma FirstSlashes(input: string, base: Option<Url>, m: Config)
    requires m.state == AuthorityFirstSlash || m.state == RelativeOrAuthority
    requires 0 <= m.cursor && m.cursor + 2 < |input| && !m.u.invalid
    requires input[m.cursor] == '/' && input[m.cursor + 1] == '/'
    ensures Run(input, None, base, m) ==
            Run(input, None, base, m.(state := AuthorityIgnoreSlashes, cursor := m.cursor + 2))
  {
    var n := m.(state := AuthorityIgnoreSlashes, cursor := m.cursor + 2);
    var k := m.(state := if m.state == AuthorityFirstSlash then AuthoritySecondSlash else AuthorityIgnoreSlashes,
                cursor := m.cursor + 1);
    Round(input, None, base, m, k);
    Round(input, None, base, k, n);
  }

  lemma SlashesRead(input: string, base: Option<Url>, m: Config)
    requires m.state == AuthorityFirstSlash || m.state == RelativeOrAuthority
    requires 0 <= m.cursor && m.cursor + 2 < |input| && !m.u.invalid
    requires input[m.cursor] == '/' && input[m.cursor + 1] == '/'
    requires input[m.cursor + 2] != '/' && input[m.cursor + 2] != '\\'
    ensures Run(input, None, base, m) == Run(input, None, base, m.(state := Authority, cursor := m.cursor + 2))
  {
    FirstSlashes(input, base, m);
    var n := m.(state := AuthorityIgnoreSlashes, cursor := m.cursor + 2);
    Round(input, None, base, n, n.(state := Authority));
    hide Run;
  }

  predicate ReadableAuthority(u: Url) {
    && GoodUser(u.username) && GoodPassword(u.password) && '@' !in WithPort(u.host, u.port)
    && (forall i :: 0 <= i < |AuthorityText(u)| ==> !IsDelimiter(AuthorityText(u)[i]))
    && PlainHost(u.host) && (u.port != "" ==> !OpenBracket(u.host) && OwnPort(u.scheme, u.port))
  }

  lemma CredentialsChars(u: Url)
    requires GoodUser(u.username) && GoodPassword(u.password)
    ensures forall i :: 0 <= i < |Credentials(u)| ==> !IsDelimiter(Credentials(u)[i])
  {
    hide Credentials, UserText, UserInfo, GoodUser, GoodPassword;
    CredentialsText(u);
    UserRead(u);
  }

  lemma WithPortChars(host: string, port: string)
    requires AllHost(host) && '@' !in host && AllDigits(port)
    ensures '@' !in WithPort(host, port)
    ensures forall i :: 0 <= i < |WithPort(host, port)| ==> !IsDelimiter(WithPort(host, port)[i])
  {
    forall i | 0 <= i < |port| ensures port[i] != '@' && !IsDelimiter(port[i]) { assert Digit(port[i]); }
  }

  lemma AuthorityChars(u: Url)
    requires Sound(u) && HostPart(u) && !IsFile(u.scheme)
    ensures ReadableAuthority(u) && AuthorityText(u) != ""
  {
    hide Credentials, ParseNat, Decimal, DefaultPort, OpenBracket, ColonsBracketed, GoodPath, GoodUser, GoodPassword,
      AllHost,
      GoodScheme, GoodQuery, GoodFragment, IsDrive, AllDigits;
    CredentialsChars(u);
    NoDigits();
    WithPortChars(u.host, u.port);
  }

  lemma NoDigits()
    ensures AllDigits("")
  {}

  /** What a printed authority from a to e says. */
  predicate AuthorityFacts(s: string, u: Url, a: int, e: int) {
    var t := Slice(s, a, e);
    var h := a + |Credentials(u)|;
    && 0 <= a <= h <= e < |s| && s[e] == '/'
    && (forall i :: a <= i < e ==> !IsDelimiter(s[i]))
    && HostStart(t) == |Credentials(u)| && ReadUser("", None, false, t) == (u.username, u.password)
    && Slice(s, h, e) == WithPort(u.host, u.port)
    && PlainHost(u.host) && (u.port != "" ==> !OpenBracket(u.host) && OwnPort(u.scheme, u.port))
  }

  lemma AuthorityHas(s: string, u: Url, a: int, e: int)
    requires 0 <= a <= e < |s| && s[e] == '/' && Slice(s, a, e) == AuthorityText(u)
    requires ReadableAuthority(u)
    ensures AuthorityFacts(s, u, a, e)
  {
    hide GoodUser, GoodPassword, ReadUser, HostStart, PlainHost, OwnPort, OpenBracket, WithPort, Credentials;
    CredentialsRead(u, WithPort(u.host, u.port));
    var t := Slice(s, a, e);
    assert forall i :: a <= i < e ==> s[i] == t[i - a];
    assert t[|Credentials(u)|..] == WithPort(u.host, u.port);
    assert Slice(s, a + |Credentials(u)|, e) == t[|Credentials(u)|..];
  }

  lemma FactsAhead(s: string, u: Url, m: Config, a: int, e: int)
    requires AuthorityFacts(s, u, a, e) && m == Config(Authority, a, "", false, false, Head(u.scheme))
    ensures AuthorityAhead(s, m, e)
  {
    hide OwnPort, OpenBracket, PlainHost, ReadUser, HostStart, Credentials, WithPort, Slice;
  }

  /** From the start of the authority to the slash that ends it. */
  lemma AuthorityRead(s: string, base: Option<Url>, u: Url, m: Config, a: int, e: int) returns (n: Config)
    requires AuthorityFacts(s, u, a, e)
    requires m == Config(Authority, a, "", false, false, Head(u.scheme))
    ensures n.state == RelativePathStart && n.cursor == e && n.buffer == ""
    ensures n.u == Head(u.scheme).(username := u.username, password := u.password, host := u.host, port := u.port)
    ensures Run(s, None, base, m) == Run(s, None, base, n)
  {
    hide Run, OwnPort, OpenBracket, PlainHost, ReadUser, HostStart, Credentials, WithPort, Slice, AuthorityAhead;
    FactsAhead(s, u, m, a, e);
    AuthorityToHost(s, None, base, m, e);
    var h := AtHost(m, Slice(s, a, e));
    HostRead(s, base, h, e, u.host, u.port);
    n := h.(state := RelativePathStart, cursor := e, seenBracket := OpenBracket(u.host),
            u := h.u.(host := u.host, port := u.port));
  }

  /** The scheme and slashes of a hierarchical URL. */
  lemma WebHeadRead(s: string, base: Option<Url>, scheme: string, a: int)
    requires GoodScheme(scheme) && IsRelativeScheme(scheme) && !IsFile(scheme)
    requires |scheme| + 3 == a < |s| && s[..|scheme|] == scheme && s[|scheme|] == ':'
    requires s[|scheme| + 1] == '/' && s[|scheme| + 2] == '/' && s[a] != '/' && s[a] != '\\'
    ensures Parse(s, None, base, BLANK) == Run(s, None, base, Config(Authority, a, "", false, false, Head(scheme)))
  {
    var next := if base.Some? && base.value.scheme == scheme then RelativeOrAuthority else AuthorityFirstSlash;
    var n := Config(next, |scheme| + 1, "", false, false, Head(scheme));
    assert StepScheme(None, base, Config(Scheme, |scheme|, scheme, false, false, BLANK), Some(':')) == Next(n);
    hide Run, StepScheme, Parse;
    SchemeRead(s, base, BLANK, scheme, n);
    SlashesRead(s, base, n);
  }

  /** From the slash that ends the authority to the end. */
  lemma RestRead(s: string, base: Option<Url>, u: Url, n: Config, a: int, e: int, q: int, f: int)
    requires Layout(s, u, a, e, q, f) && Sound(u) && Hierarchical(u)
    requires n.state == RelativePathStart && n.cursor == e && n.buffer == ""
    requires n.u == u.(path := [], query := "", fragment := "")
    ensures Run(s, None, base, n) == Done(u)
  {
    assert Printed(s, e, q, f, u.path);
    assert IsFile(u.scheme) ==> !IsPipeDrive(u.path[0]);
    assert !u.invalid;
    hide Run, Sound, Hierarchical, Printed, IsPipeDrive;
    PathRead(s, base, n, q, f, u.path);
  }

  /** A hierarchical URL other than file. */
  lemma WebRead(s: string, u: Url, base: Option<Url>, a: int, e: int, q: int, f: int)
    requires Layout(s, u, a, e, q, f)
    requires Sound(u) && Hierarchical(u) && !IsFile(u.scheme)
    ensures Parse(s, None, base, BLANK) == Done(u)
  {
    AuthorityChars(u);
    assert s[a] == AuthorityText(u)[0] by { assert Slice(s, a, e)[0] == s[a]; }
    assert AuthorityText(u)[0] != '/' && AuthorityText(u)[0] != '\\';
    AuthorityHas(s, u, a, e);
    assert u == Head(u.scheme).(username := u.username, password := u.password, host := u.host, port := u.port,
                                path := u.path, query := u.query, fragment := u.fragment);
    assert HostPart(u);
    hide Sound, ReadableAuthority, Hierarchical, AuthorityFacts, Layout, Run, Parse, GoodScheme, IsRelativeScheme;
    WebHeadRead(s, base, u.scheme, a);
    var n := AuthorityRead(s, base, u, Config(Authority, a, "", false, false, Head(u.scheme)), a, e);
    RestRead(s, base, u, n, a, e, q, f);
  }

  // ---------- file URLs ----------

  lemma FileHostRound(input: string, base: Option<Url>, m: Config)
    requires m.state == FileHost && 0 <= m.cursor < |input| && !m.u.invalid && HostChar(input[m.cursor])
    ensures Run(input, None, base, m) ==
            Run(input, None, base, m.(cursor := m.cursor + 1, buffer := m.buffer + [input[m.cursor]]))
  {
    Round(input, None, base, m, m.(cursor := m.cursor + 1, buffer := m.buffer + [input[m.cursor]]));
  }

  lemma {:induction false} FileHostScan(input: string, base: Option<Url>, m: Config, j: int)
    requires m.state == FileHost && 0 <= m.cursor <= j <= |input| && !m.u.invalid
    requires forall i :: m.cursor <= i < j ==> HostChar(input[i])
    ensures Run(input, None, base, m) ==
            Run(input, None, base, m.(cursor := j, buffer := m.buffer + Slice(input, m.cursor, j)))
    decreases j - m.cursor
  {
    hide Run;
    if m.cursor < j {
      FileHostRound(input, base, m);
      SliceSplit(input, m.cursor, j, m.buffer);
      FileHostScan(input, base, m.(cursor := m.cursor + 1, buffer := m.buffer + [input[m.cursor]]), j);
    } else {
      assert m.buffer + Slice(input, m.cursor, j) == m.buffer;
    }
  }

  lemma FileHostEnd(input: string, base: Option<Url>, m: Config, host: string)
    requires m.state == FileHost && 0 <= m.cursor < |input| && input[m.cursor] == '/' && m.u == Head(m.u.scheme)
    requires m.buffer == host && !IsDrive(host) && Lower(host) == host
    ensures Run(input, None, base, m) ==
            Run(input, None, base, m.(state := RelativePathStart, buffer := "", u := m.u.(host := host)))
  {
    Round(input, None, base, m, m.(state := RelativePathStart, buffer := "", u := m.u.(host := host)));
  }

  /** The scheme and slashes of a file URL; the base plays no part. */
  lemma FileHeadRead(s: string, base: Option<Url>, scheme: string, a: int)
    requires GoodScheme(scheme) && IsFile(scheme)
    requires |scheme| + 3 == a < |s| && s[..|scheme|] == scheme && s[|scheme|] == ':'
    requires s[|scheme| + 1] == '/' && s[|scheme| + 2] == '/'
    ensures Parse(s, None, base, BLANK) == Run(s, None, base, Config(FileHost, a, "", false, false, Head(scheme)))
  {
    var n := Config(Relative, |scheme| + 1, "", false, false, Head(scheme));
    assert StepScheme(None, base, Config(Scheme, |scheme|, scheme, false, false, BLANK), Some(':')) == Next(n);
    hide StepScheme, Parse, GoodScheme;
    SchemeRead(s, base, BLANK, scheme, n);
    var o := n.(state := RelativeSlash, cursor := |scheme| + 2);
    Round(s, None, base, n, o);
    Round(s, None, base, o, o.(state := FileHost, cursor := a));
    hide Run;
  }

  lemma FileParts(u: Url)
    requires Sound(u) && Hierarchical(u) && IsFile(u.scheme)
    ensures u == Head(u.scheme).(host := u.host, path := u.path, query := u.query, fragment := u.fragment)
    ensures AuthorityText(u) == u.host && AllHost(u.host) && Lower(u.host) == u.host && !IsDrive(u.host)
    ensures GoodScheme(u.scheme) && |AuthorityText(u)| == |u.host|
  {
    hide IsRelativeScheme, GoodUser, GoodPassword, GoodPath, GoodPort, GoodScheme;
  }

  /** The host of a file URL, up to the slash at e. */
  lemma HostSlice(s: string, i: int, e: int, host: string)
    requires 0 <= i <= e <= |s| && Slice(s, i, e) == host && AllHost(host)
    ensures forall p :: i <= p < e ==> HostChar(s[p])
  {
    hide HostChar;
    forall p | i <= p < e ensures HostChar(s[p]) { assert host[p - i] == s[p]; }
  }

  lemma FileHostRead(s: string, base: Option<Url>, m: Config, e: int, host: string)
    requires m.state == FileHost && m.buffer == "" && m.u == Head(m.u.scheme)
    requires 0 <= m.cursor <= e < |s| && s[e] == '/' && Slice(s, m.cursor, e) == host
    requires AllHost(host) && Lower(host) == host && !IsDrive(host)
    ensures Run(s, None, base, m) ==
            Run(s, None, base, m.(state := RelativePathStart, cursor := e, u := m.u.(host := host)))
  {
    hide Run, Lower, IsDrive, Slice, HostChar;
    HostSlice(s, m.cursor, e, host);
    assert "" + host == host;
    FileHostScan(s, base, m, e);
    FileHostEnd(s, base, m.(cursor := e, buffer := host), host);
  }

  /** A file URL. */
  lemma FileRead(s: string, u: Url, base: Option<Url>, a: int, e: int, q: int, f: int)
    requires Layout(s, u, a, e, q, f)
    requires Sound(u) && Hierarchical(u) && IsFile(u.scheme)
    ensures Parse(s, None, base, BLANK) == Done(u)
  {
    hide Sound, Hierarchical, Run, Parse, GoodScheme, IsFile, IsDrive, AllHost, Lower, Slice, AuthorityText, Join;
    FileParts(u);
    FileHeadRead(s, base, u.scheme, a);
    var m := Config(FileHost, a, "", false, false, Head(u.scheme));
    FileHostRead(s, base, m, e, u.host);
    RestRead(s, base, u, m.(state := RelativePathStart, cursor := e, u := m.u.(host := u.host)), a, e, q, f);
  }

  // ---------- URLs without hierarchy ----------

  lemma OpaqueHeadRead(s: string, base: Option<Url>, scheme: string)
    requires GoodScheme(scheme) && !IsRelativeScheme(scheme)
    requires |scheme| < |s| && s[..|scheme|] == scheme && s[|scheme|] == ':'
    ensures Parse(s, None, base, BLANK) ==
            Run(s, None, base, Config(SchemeData, |scheme| + 1, "", false, false, BLANK.(scheme := scheme)))
  {
    var n := Config(SchemeData, |scheme| + 1, "", false, false, BLANK.(scheme := scheme));
    assert StepScheme(None, base, Config(Scheme, |scheme|, scheme, false, false, BLANK), Some(':')) == Next(n);
    hide StepScheme, Parse, Run, GoodScheme;
    SchemeRead(s, base, BLANK, scheme, n);
  }

  lemma OpaqueEnd(s: string, base: Option<Url>, m: Config)
    requires m.state == SchemeData && 0 <= m.cursor <= |s| && !m.u.invalid && m.u.fragment == ""
    requires GoodFragment(Slice(s, m.cursor, |s|))
    ensures Run(s, None, base, m) == Done(m.u.(fragment := Slice(s, m.cursor, |s|)))
  {
    if m.cursor == |s| {
      EndRound(s, None, base, m);
    } else {
      assert Slice(s, m.cursor, |s|)[0] == s[m.cursor];
      var n := m.(state := Fragment, cursor := m.cursor + 1, u := m.u.(fragment := "#"));
      Round(s, None, base, m, n);
      hide Run;
      FragmentRead(s, None, base, n, m.cursor);
    }
  }

  /** Where the parts of a printed URL without hierarchy stand. */
  lemma OpaqueLayout(u: Url, text: string)
    requires !u.invalid && !u.relative && u.query == ""
    ensures var s := Href(u, text);
            var h := |u.scheme| + 1;
            && h + |u.schemeData| <= |s| && s[..|u.scheme|] == u.scheme && s[|u.scheme|] == ':'
            && Slice(s, h, h + |u.schemeData|) == u.schemeData
            && Slice(s, h + |u.schemeData|, |s|) == u.fragment
  {
    hide Slice, Credentials, HostText;
    OpaqueText(u.scheme, u.schemeData, u.fragment);
    Piece(u.scheme + ":", u.schemeData, u.fragment);
  }

  lemma OpaqueText(scheme: string, data: string, fragment: string)
    ensures var s := scheme + ":" + data + fragment;
      && s == scheme + ":" + "" + data + "" + fragment
      && s[..|scheme|] == scheme && s[|scheme|] == ':'
  {
    assert scheme + ":" + data + fragment == scheme + (":" + data + fragment);
  }

  lemma PlainSlice(s: string, h: int, data: string)
    requires 0 <= h && h + |data| <= |s| && Slice(s, h, h + |data|) == data && AllPlain(data)
    ensures forall i :: h <= i < h + |data| ==> Plain(s[i])
  {
    hide Plain;
    forall i | h <= i < h + |data| ensures Plain(s[i]) { assert data[i - h] == s[i]; }
  }

  lemma OpaqueParts(s: string, base: Option<Url>, scheme: string, data: string)
    requires |scheme| + 1 + |data| <= |s| && Slice(s, |scheme| + 1, |scheme| + 1 + |data|) == data && AllPlain(data)
    requires GoodFragment(Slice(s, |scheme| + 1 + |data|, |s|))
    ensures Run(s, None, base, Config(SchemeData, |scheme| + 1, "", false, false, BLANK.(scheme := scheme))) ==
            Done(BLANK.(scheme := scheme, schemeData := data, fragment := Slice(s, |scheme| + 1 + |data|, |s|)))
  {
    hide Run, GoodFragment, Plain, Slice;
    var h := |scheme| + 1;
    var k := h + |data|;
    PlainSlice(s, h, data);
    assert "" + data == data;
    var m := Config(SchemeData, h, "", false, false, BLANK.(scheme := scheme));
    DataScan(s, None, base, m, k);
    OpaqueEnd(s, base, m.(cursor := k, u := m.u.(schemeData := data)));
  }

  lemma OpaqueRead(u: Url, text: string, base: Option<Url>)
    requires Opaque(u) && GoodFragment(u.fragment)
    ensures Parse(Href(u, text), None, base, BLANK) == Done(u)
  {
    hide Run, Parse, Href, GoodFragment, Slice, GoodScheme, IsRelativeScheme, AllPlain;
    OpaqueLayout(u, text);
    OpaqueHeadRead(Href(u, text), base, u.scheme);
    OpaqueParts(Href(u, text), base, u.scheme, u.schemeData);
  }

  // ---------- the theorem ----------

  lemma LastKept(x: string, y: string)
    requires KeptAtEnd(y) && (y == "" ==> KeptAtEnd(x))
    ensures KeptAtEnd(x + y)
  {
    assert y == "" ==> x + y == x;
  }

  lemma {:induction false} JoinPlain(path: seq<string>)
    requires GoodPath(path)
    ensures forall i :: 0 <= i < |Join(path, '/')| ==> Plain(Join(path, '/')[i])
    decreases |path|
  {
    if path != [] {
      assert GoodSegment(path[0]);
      if |path| > 1 { JoinPlain(path[1..]); }
    }
  }

  lemma HrefKept(u: Url, text: string)
    requires Canonical(u)
    ensures KeptAtEnd(Href(u, text))
  {
    if u.relative {
      HrefText(u, text);
      var x := u.scheme + "://" + AuthorityText(u) + "/";
      var path := Join(u.path, '/');
      JoinPlain(u.path);
      assert GoodQuery(u.query);
      hide Join, AuthorityText, Href, Hierarchical, Sound;
      LastKept(x, path);
      LastKept(x + path, u.query);
      LastKept(x + path + u.query, u.fragment);
    } else {
      var x := u.scheme + ":";
      assert Href(u, text) == x + u.schemeData + u.fragment;
      LastKept(x, u.schemeData);
      LastKept(x + u.schemeData, u.fragment);
    }
  }

  /** A printed canonical object has nothing to trim. */
  lemma HrefUntrimmed(u: Url, text: string)
    requires Canonical(u)
    ensures Trim(Href(u, text)) == Href(u, text)
  {
    var s := Href(u, text);
    HrefKept(u, text);
    assert s[0] == u.scheme[0] && Alpha(s[0]);
    hide Canonical;
    TrimSame(s);
  }

  /** Printing a canonical object and parsing the text again, against any base, gives the object
      back in every field. */
  lemma ParseHref(u: Url, text: string, base: Option<Url>)
    requires Canonical(u)
    ensures Construct(Href(u, text), base) == Done(u)
  {
    HrefUntrimmed(u, text);
    hide Parse;
    PrintedRead(u, text, base);
  }

  /** The same for the parser alone, which trims nothing. */
  lemma PrintedRead(u: Url, text: string, base: Option<Url>)
    requires Printable(u)
    ensures Parse(Href(u, text), None, base, BLANK) == Done(u)
  {
    if u.relative {
      var a, e, q, f := HrefLayout(u, text);
      assert Sound(u) && Hierarchical(u);
      hide Printable, Href, Parse, Layout, Sound, Hierarchical;
      if IsFile(u.scheme) { FileRead(Href(u, text), u, base, a, e, q, f); }
      else { WebRead(Href(u, text), u, base, a, e, q, f); }
    } else {
      OpaqueRead(u, text, base);
    }
  }

  /** The canonical objects are exactly the valid ones that survive printing and parsing. */
  lemma CanonicalExact(u: Url, text: string)
    requires !u.invalid
    ensures Construct(Href(u, text), None) == Done(u) <==> Canonical(u)
  {
    UnborrowedCanonical(Href(u, text), None);
    if Canonical(u) { ParseHref(u, text, None); }
  }

  lemma {:induction false} TrimRightFront(s: string, k: nat)
    requires k < |s| && !IsTrimmed(s[k])
    ensures k < |TrimRight(s)| && TrimRight(s)[..k + 1] == s[..k + 1]
    decreases |s|
  {
    if IsTrimmed(s[|s| - 1]) { TrimRightFront(s[..|s| - 1], k); }
  }

  /** A printed file URL reads the same against every base. */
  lemma PrintedFile(u: Url, text: string, b1: Option<Url>, b2: Option<Url>)
    requires !u.invalid && u.relative && IsFile(u.scheme)
    ensures Construct(Href(u, text), b1) == Construct(Href(u, text), b2)
  {
    var s := Href(u, text);
    FileHrefFront(u, text);
    TrimRightFront(s, 5);
    var t := Trim(s);
    assert TrimLeft(s) == s && t == TrimRight(s) && |t| > 5;
    assert t[..6] == "file:/";
    assert t[..4] == t[..6][..4] && t[4] == t[..6][4] && t[5] == t[..6][5];
    assert Lower("file") == "file";
    hide Parse, Href;
    KeepsOff(t, b1, b2);
  }

  lemma FileHrefFront(u: Url, text: string)
    requires !u.invalid && u.relative && IsFile(u.scheme)
    ensures var s := Href(u, text); |s| > 5 && s[..6] == "file:/" && s[0] == 'f' && s[5] == '/'
  {
    hide Credentials, HostText, PathText;
    FileFront(Credentials(u), HostText(u), PathText(u), u.query, u.fragment);
  }

  lemma FileFront(user: string, host: string, path: string, query: string, fragment: string)
    ensures var s := "file" + ":" + ("//" + user + host) + path + query + fragment;
      |s| > 5 && s[..6] == "file:/" && s[0] == 'f' && s[5] == '/'
  {
    var s := "file" + ":" + ("//" + user + host) + path + query + fragment;
    assert s == "file:/" + ("/" + user + host + path + query + fragment);
  }

  /** Parse, print, parse: for any text that the constructor accepts, without a base or with a canonical one,
      the printed text gives the same object, against any base, if and only if the text does not borrow from a
      base of another scheme, or borrows what can be printed. */
  lemma ParsePrintParse(text: string, base: Option<Url>, other: Option<Url>)
    requires Ascii(text) && CanonicalBase(base)
    requires var o := Construct(text, base); o.Done? && !o.u.invalid
    ensures var u := Construct(text, base).u;
            Construct(Href(u, text), other) == Done(u) <==> Survives(text, base)
  {
    ConstructCanonical(text, base);
    var u := Construct(text, base).u;
    if Survives(text, base) {
      hide Construct, Canonical, Survives;
      ParseHref(u, text, other);
    } else {
      BorrowedKind(text, base);
      hide Construct, Canonical, Survives;
      PrintedFile(u, text, other, None);
      CanonicalExact(u, text);
    }
  }

  lemma BorrowedKind(text: string, base: Option<Url>)
    requires CanonicalBase(base) && Borrows(Trim(text), base)
    ensures var o := Construct(text, base); IsFile(o.u.scheme) && o.u.relative
  {
    hide Parse;
    TrimRightKept(TrimLeft(text));
    BorrowedCanonical(Trim(text), base.value);
  }

  /** The text "file:" alone, on a canonical base of another scheme: the object comes back exactly when the base
      has no port, a host that is no drive, and a path that does not begin with a drive spelled with '|'. */
  lemma BareFile(base: Url)
    requires Canonical(base) && !IsFile(base.scheme)
    ensures var o := Construct("file:", Some(base));
      && o.Done? && !o.u.invalid
      && (Construct(Href(o.u, "file:"), None) == Done(o.u) <==>
            base.port == "" && !IsDrive(base.host) && base.path != [] && !IsPipeDrive(base.path[0]))
  {
    assert Trim("file:") == "file:" && Lower("file") == "file" && "file:"[..4] == "file";
    hide Parse, Canonical, Href, IsDrive, IsPipeDrive;
    BorrowedCanonical("file:", base);
    ParsePrintParse("file:", Some(base), None);
  }

  /** A base that the constructor makes, and a text that does not come back on it. */
  lemma ForeignBase()
    ensures var base := Head("http").(host := "h", port := "81", path := [""]);
      var o := Construct("file:", Some(base));
      && Construct(Href(base, ""), None) == Done(base)
      && o.Done? && !o.u.invalid && Construct(Href(o.u, "file:"), None) != Done(o.u)
  {
    var base := Head("http").(host := "h", port := "81", path := [""]);
    PlainBase(base);
    hide Construct, Canonical, Href;
    BareFile(base);
    ParseHref(base, "", None);
  }

  lemma PlainBase(base: Url)
    requires base == Head("http").(host := "h", port := "81", path := [""])
    ensures Canonical(base)
  {
    PlainPort();
    assert Lower("h") == "h" && Lower("") == "" && GoodSegment("");
    hide GoodSegment, GoodPort, ParseNat, Decimal;
  }

  lemma PlainPort()
    ensures GoodPort("81") && ParseNat("81") == 81
  {
    assert "81"[..1] == "8" && "8"[..0] == "";
    assert ParseNat("8") == 8;
    assert Decimal(8) == "8" && Decimal(81) == "81";
  }
}
