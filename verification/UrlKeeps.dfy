/** What each setter does to a canonical URL, for every text: the exact effect, and when the object is still one that
    survives printing. */
module UrlKeeps {
  import opened Wrappers
  import opened Text
  import opened UrlMachine
  import opened UrlInvariant
  import opened UrlScan
  import opened UrlCursor
  import opened UrlCanonical
  import opened UrlRoundTrip
  import opened UrlSetters
  import opened UrlOutcome

  // ---------- protocol ----------

  /** The protocol setter takes over the scheme that the text names up to its first colon or its end; a text that names
      none changes nothing. */
  lemma ProtocolExact(u: Url, t: string)
    requires !u.invalid
    ensures Apply(u, SetProtocol(t)) == Done(if HasScheme(t + ":") then u.(scheme := SchemeOf(t + ":")) else u)
  {
    var s, ov := t + ":", Some(SchemeStart);
    var m := Start(ov, u);
    if !Alpha(s[0]) {
      BreakRound(s, ov, None, m, u);
    } else {
      var k := SchemeEnd(s);
      assert SchemeChar(s[0]) && k >= 1;
      var n := Config(Scheme, 1, [LowerChar(s[0])], false, false, u);
      assert [LowerChar(s[0])] + Lower(Slice(s, 1, k)) == Lower(s[..k]);
      assert s[|s| - 1] == ':' && k < |s|;
      hide Run, SchemeEnd, Lower, Slice;
      Round(s, ov, None, m, n);
      SchemeScan(s, ov, None, n, k);
      var e := n.(cursor := k, buffer := Lower(s[..k]));
      BreakRound(s, ov, None, e, if s[k] == ':' then u.(scheme := Lower(s[..k])) else u);
    }
  }

  /** A canonical object stays one under another scheme. */
  predicate SchemeFits(u: Url, s: string) {
    if !u.relative then !IsRelativeScheme(s)
    else
      && IsRelativeScheme(s)
      && if IsFile(s) then
           IsFile(u.scheme) ||
           (u.username == "" && u.password.None? && u.port == "" && !IsDrive(u.host) &&
            (u.path != [] ==> !IsPipeDrive(u.path[0])))
         else if IsFile(u.scheme) then u.host != "" && ColonsBracketed(u.host) && '@' !in u.host
         else u.port != "" ==> DefaultPort(s) != Some(ParseNat(u.port))
  }

  lemma SchemeOfGood(s: string)
    requires HasScheme(s)
    ensures GoodScheme(SchemeOf(s))
  {
    var k := SchemeEnd(s);
    assert SchemeChar(s[0]) && k >= 1;
    forall i | 0 <= i < k ensures SchemeChar(SchemeOf(s)[i]) && LowerChar(SchemeOf(s)[i]) == SchemeOf(s)[i] {
      assert SchemeChar(s[i]);
    }
  }

  lemma SchemeCanonical(u: Url, s: string)
    requires Canonical(u) && GoodScheme(s)
    ensures Canonical(u.(scheme := s)) <==> SchemeFits(u, s)
  {
    hide GoodScheme, GoodUser, GoodPassword, GoodHost, GoodPort, GoodPath, GoodQuery, GoodFragment, ColonsBracketed,
      OpenBracket, IsDrive, IsPipeDrive, ParseNat, AllPlain, KeptAtEnd, IsRelativeScheme, DefaultPort;
    assert Sound(u.(scheme := s)) == Sound(u);
  }

  // ---------- port ----------

  function LeadingDigits(t: string): (d: string)
    ensures |d| <= |t| && d == t[..|d|] && AllDigits(d) && (|d| < |t| ==> !Digit(t[|d|]))
  {
    if t != "" && Digit(t[0]) then [t[0]] + LeadingDigits(t[1..]) else ""
  }

  /** The number is one that the original computes exactly. */
  predicate SmallPort(t: string) { LeadingDigits(t) != "" ==> ParseNat(LeadingDigits(t)) < MAX_EXACT }

  /** The text begins with a port other than the scheme's own. */
  predicate ReadsPort(u: Url, t: string) {
    LeadingDigits(t) != "" && DefaultPort(u.scheme) != Some(ParseNat(LeadingDigits(t)))
  }

  function WithPortOf(u: Url, t: string): Url {
    if ReadsPort(u, t) then u.(port := Decimal(ParseNat(LeadingDigits(t)))) else u
  }

  /** The port state under an override, on the text that is left: leading digits count, whatever follows them. */
  lemma PortFrom(t: string, ov: Option<State>, m: Config)
    requires ov.Some? && m.state == Port && m.buffer == "" && 0 <= m.cursor <= |t| && !m.u.invalid
    ensures Run(t, ov, None, m) ==
      if SmallPort(t[m.cursor..]) then Done(WithPortOf(m.u, t[m.cursor..])) else PortOverflow(m.u)
  {
    var d := LeadingDigits(t[m.cursor..]);
    var j := m.cursor + |d|;
    forall i | m.cursor <= i < j ensures Digit(t[i]) { assert d[i - m.cursor] == t[i]; }
    assert "" + Slice(t, m.cursor, j) == d;
    assert At(t, j).Some? ==> !Digit(t[j]) by { assert j < |t| ==> t[m.cursor..][|d|] == t[j]; }
    hide Run, LeadingDigits, Slice, AllDigits;
    PortScan(t, ov, None, m, j);
    PortStop(t, ov, m.(cursor := j, buffer := d));
  }

  lemma PortStop(t: string, ov: Option<State>, n: Config)
    requires ov.Some? && n.state == Port && 0 <= n.cursor <= |t| && !n.u.invalid
    requires n.cursor < |t| ==> !Digit(t[n.cursor])
    ensures Run(t, ov, None, n) ==
      if n.buffer != "" && ParseNat(n.buffer) >= MAX_EXACT then PortOverflow(n.u)
      else if n.buffer == "" || DefaultPort(n.u.scheme) == Some(ParseNat(n.buffer)) then Done(n.u)
      else Done(n.u.(port := Decimal(ParseNat(n.buffer))))
  {
    assert InLoop(t, n);
    hide ParseNat, Decimal, DefaultPort;
  }

  lemma PortExact(u: Url, t: string)
    requires !u.invalid && u.relative
    ensures Apply(u, SetPort(t)) == if SmallPort(t) then Done(WithPortOf(u, t)) else PortOverflow(u)
  {
    assert t[0..] == t;
    hide Run;
    PortFrom(t, Some(Port), Start(Some(Port), u));
  }

  lemma PortCanonical(u: Url, t: string)
    requires Canonical(u) && u.relative && Sound(WithPortOf(u, t))
    ensures Canonical(WithPortOf(u, t)) <==> ReadsPort(u, t) ==> !IsFile(u.scheme) && !OpenBracket(u.host)
  {
    ParseDecimal(ParseNat(LeadingDigits(t)));
    hide GoodScheme, Sound, ColonsBracketed, OpenBracket, IsDrive, IsPipeDrive, ParseNat, Decimal, LeadingDigits,
      KeptAtEnd, IsRelativeScheme, DefaultPort;
  }

  // ---------- host ----------

  /** The host that t goes on with after b, and what is left of t from the character that ends it. */
  function HostEnds(t: string, b: string): (string, string) {
    if t == "" || IsDelimiter(t[0]) || (t[0] == ':' && !OpenBracket(b)) then (b, t)
    else HostEnds(t[1..], if IsTabOrNewline(t[0]) then b else b + [t[0]])
  }

  lemma {:induction false} HostEndsRest(t: string, b: string)
    ensures var (host, rest) := HostEnds(t, b);
      && |rest| <= |t| && rest == t[|t| - |rest|..]
      && (rest != "" ==> IsDelimiter(rest[0]) || (rest[0] == ':' && !OpenBracket(host)))
    decreases |t|
  {
    hide OpenBracket, IsDelimiter, IsTabOrNewline;
    if t == "" || IsDelimiter(t[0]) || (t[0] == ':' && !OpenBracket(b)) {
    } else {
      HostEndsRest(t[1..], if IsTabOrNewline(t[0]) then b else b + [t[0]]);
    }
  }

  lemma {:induction false} HostEndsGood(t: string, b: string)
    requires ColonsBracketed(b)
    ensures ColonsBracketed(HostEnds(t, b).0)
    decreases |t|
  {
    if t == "" || IsDelimiter(t[0]) || (t[0] == ':' && !OpenBracket(b)) {
    } else if IsTabOrNewline(t[0]) {
      HostEndsGood(t[1..], b);
    } else {
      ColonsPush(b, t[0]);
      HostEndsGood(t[1..], b + [t[0]]);
    }
  }

  lemma ColonsPush(b: string, c: char)
    requires ColonsBracketed(b) && (c == ':' ==> OpenBracket(b))
    ensures ColonsBracketed(b + [c])
  {
    forall i | 0 <= i < |b + [c]| && (b + [c])[i] == ':' ensures OpenBracket((b + [c])[..i]) {
      assert (b + [c])[..i] == b[..i];
      assert i == |b| ==> b[..i] == b;
    }
  }

  predicate AtHostState(ov: Option<State>, m: Config) {
    ((m.state == Host && (ov == Some(Host) || ov.None?)) || (m.state == Hostname && ov == Some(Hostname)))
    && !m.u.invalid && m.seenBracket == OpenBracket(m.buffer)
  }

  lemma HostEndsNext(t: string, b: string)
    ensures HostEnds(t, b) ==
      if t == "" || IsDelimiter(t[0]) || (t[0] == ':' && !OpenBracket(b)) then (b, t)
      else HostEnds(t[1..], if IsTabOrNewline(t[0]) then b else b + [t[0]])
  {}

  lemma HostTab(t: string, ov: Option<State>, m: Config)
    requires AtHostState(ov, m) && 0 <= m.cursor < |t| && IsTabOrNewline(t[m.cursor])
    ensures Run(t, ov, None, m) == Run(t, ov, None, m.(cursor := m.cursor + 1))
  {
    hide OpenBracket;
    Round(t, ov, None, m, m.(cursor := m.cursor + 1));
  }

  /** The point at which a host state stops. */
  function Swept(t: string, m: Config): Config
    requires 0 <= m.cursor <= |t|
  {
    var (b, rest) := HostEnds(t[m.cursor..], m.buffer);
    m.(cursor := |t| - |rest|, buffer := b, seenBracket := OpenBracket(b))
  }

  lemma SweptHere(t: string, ov: Option<State>, m: Config)
    requires AtHostState(ov, m) && 0 <= m.cursor <= |t|
    requires m.cursor == |t| || IsDelimiter(t[m.cursor]) || (t[m.cursor] == ':' && !m.seenBracket)
    ensures Swept(t, m) == m
  {
    hide OpenBracket, IsDelimiter, HostEnds;
    var s := t[m.cursor..];
    assert s != "" ==> s[0] == t[m.cursor];
    HostEndsNext(s, m.buffer);
  }

  lemma SweptNext(t: string, m: Config, n: Config)
    requires 0 <= m.cursor < |t| && !IsDelimiter(t[m.cursor]) && (t[m.cursor] == ':' ==> OpenBracket(m.buffer))
    requires n == m.(cursor := m.cursor + 1, buffer := n.buffer, seenBracket := n.seenBracket)
    requires n.buffer == if IsTabOrNewline(t[m.cursor]) then m.buffer else m.buffer + [t[m.cursor]]
    ensures Swept(t, n) == Swept(t, m)
  {
    hide OpenBracket, IsDelimiter, HostEnds, IsTabOrNewline;
    var s := t[m.cursor..];
    assert s[0] == t[m.cursor] && s[1..] == t[m.cursor + 1..];
    HostEndsNext(s, m.buffer);
  }

  /** The rounds of a host state, on any text. */
  lemma {:induction false} HostSweep(t: string, ov: Option<State>, m: Config)
    requires AtHostState(ov, m) && 0 <= m.cursor <= |t|
    ensures Run(t, ov, None, m) == Run(t, ov, None, Swept(t, m))
    decreases |t| - m.cursor
  {
    hide Run, OpenBracket, Swept, IsDelimiter, IsTabOrNewline;
    if m.cursor == |t| || IsDelimiter(t[m.cursor]) || (t[m.cursor] == ':' && !m.seenBracket) {
      SweptHere(t, ov, m);
    } else if IsTabOrNewline(t[m.cursor]) {
      var n := m.(cursor := m.cursor + 1);
      HostTab(t, ov, m);
      SweptNext(t, m, n);
      HostSweep(t, ov, n);
    } else {
      var b := m.buffer + [t[m.cursor]];
      var n := m.(cursor := m.cursor + 1, buffer := b, seenBracket := OpenBracket(b));
      HostRound(t, ov, None, m, n);
      SweptNext(t, m, n);
      HostSweep(t, ov, n);
    }
  }

  lemma HostStop(t: string, ov: Option<State>, n: Config)
    requires AtHostState(ov, n) && 0 <= n.cursor <= |t| && ov.Some?
    requires n.cursor < |t| ==> IsDelimiter(t[n.cursor]) || (t[n.cursor] == ':' && !n.seenBracket)
    ensures n.cursor == |t| || t[n.cursor] != ':' || ov == Some(Hostname) ==>
      Run(t, ov, None, n) == Done(WithHost(n.u, n.buffer))
    ensures n.cursor < |t| && t[n.cursor] == ':' && ov == Some(Host) ==>
      Run(t, ov, None, n) ==
        if n.buffer == "" then Done(INVALID)
        else Run(t, ov, None, n.(state := Port, cursor := n.cursor + 1, buffer := "", u := WithHost(n.u, n.buffer)))
  {
    hide OpenBracket;
    var c, v := At(t, n.cursor), WithHost(n.u, n.buffer);
    if c == Some(':') && ov == Some(Host) {
      var p := n.(state := Port, cursor := n.cursor + 1, buffer := "", u := v);
      Round(t, ov, None, n, p);
    } else {
      BreakRound(t, ov, None, n, v);
    }
  }

  /** The hostname setter takes over the text's host, tabs and line ends left out; no host invalidates. */
  lemma HostnameExact(u: Url, t: string)
    requires !u.invalid && u.relative
    ensures Apply(u, SetHostname(t)) == Done(WithHost(u, HostEnds(t, "").0))
  {
    var ov, m := Some(Hostname), Start(Some(Hostname), u);
    assert t[0..] == t && !OpenBracket("");
    hide Run, WithHost, OpenBracket, HostEnds;
    HostSweep(t, ov, m);
    HostEndsRest(t, "");
    var (b, rest) := HostEnds(t, "");
    var n := m.(cursor := |t| - |rest|, buffer := b, seenBracket := OpenBracket(b));
    assert n == Swept(t, m) && (rest != "" ==> t[n.cursor] == rest[0]);
    HostStop(t, ov, n);
  }

  /** The host setter does the same, and goes on to a port where a colon ends the host. */
  lemma HostExact(u: Url, t: string)
    requires !u.invalid && u.relative
    ensures var (b, rest) := HostEnds(t, "");
      Apply(u, SetHost(t)) ==
        if b == "" then Done(INVALID)
        else if rest == "" || rest[0] != ':' then Done(WithHost(u, b))
        else if SmallPort(rest[1..]) then Done(WithPortOf(WithHost(u, b), rest[1..]))
        else PortOverflow(WithHost(u, b))
  {
    var ov, m := Some(Host), Start(Some(Host), u);
    assert t[0..] == t && !OpenBracket("");
    hide Run, OpenBracket, HostEnds, SmallPort, WithPortOf;
    HostSweep(t, ov, m);
    HostEndsRest(t, "");
    var (b, rest) := HostEnds(t, "");
    var n := m.(cursor := |t| - |rest|, buffer := b, seenBracket := OpenBracket(b));
    assert n == Swept(t, m) && (rest != "" ==> t[n.cursor] == rest[0] && t[n.cursor + 1..] == rest[1..]);
    HostStop(t, ov, n);
    if b != "" && rest != "" && rest[0] == ':' {
      PortFrom(t, ov, n.(state := Port, cursor := n.cursor + 1, buffer := "", u := WithHost(u, b)));
    }
  }

  /** A canonical object stays one with another host. */
  predicate HostFits(u: Url, b: string) {
    b != "" && if IsFile(u.scheme) then !IsDrive(b) else '@' !in b && (u.port != "" ==> !OpenBracket(b))
  }

  lemma LowerAt(b: string)
    ensures '@' in Lower(b) <==> '@' in b
  {
    forall i | 0 <= i < |b| ensures Lower(b)[i] == '@' <==> b[i] == '@' {}
    if '@' in b { var i :| 0 <= i < |b| && b[i] == '@'; assert Lower(b)[i] == '@'; }
    hide Lower;
  }

  lemma HostCanonical(u: Url, b: string)
    requires Canonical(u) && u.relative && ColonsBracketed(b) && Sound(WithHost(u, b))
    ensures Canonical(WithHost(u, b)) <==> HostFits(u, b)
  {
    LowerColons(b);
    LowerAt(b);
    LowerMarks2(b);
    LowerHost(b);
    hide GoodScheme, Sound, ColonsBracketed, OpenBracket, IsDrive, IsPipeDrive, ParseNat, KeptAtEnd, IsRelativeScheme,
      DefaultPort, Lower;
  }

  lemma LowerMarks2(b: string)
    ensures IsDrive(Lower(b)) == IsDrive(b) && (Lower(b) == "" <==> b == "")
  {}

  // ---------- path, query and fragment ----------

  /** A path that a pathname setter is building. */
  predicate PathOpen(t: string, file: bool, m: Config) {
    && m.state in {RelativePathStart, RelativePath} && !m.u.invalid && IsFile(m.u.scheme) == file
    && 0 <= m.cursor <= |t| + 1
    && (file && m.u.path != [] ==> !IsPipeDrive(m.u.path[0]))
    && (m.cursor == |t| + 1 ==> m.u.path != [])
    && (m.state == RelativePathStart ==> m.cursor == 0)
  }

  lemma PathOpenStep(t: string, file: bool, m: Config)
    requires PathOpen(t, file, m) && m.cursor <= |t|
    ensures var r := Step(t, Some(RelativePathStart), None, m); r.Next? && PathOpen(t, file, r.next)
  {
    hide StepRelativePath, IsFile, IsPipeDrive;
    if m.state == RelativePath { PathOpenMove(t, file, m, At(t, m.cursor)); }
  }

  lemma PathOpenMove(t: string, file: bool, m: Config, c: Option<char>)
    requires PathOpen(t, file, m) && m.cursor <= |t| && m.state == RelativePath && (m.cursor == |t| ==> c.None?)
    ensures var r := StepRelativePath(Some(RelativePathStart), m, c); r.Next? && PathOpen(t, file, r.next)
  {
    PushPart(file, m.u.path, m.buffer, IsSlash(c));
    hide PushSegment, PercentEscape, IsTabOrNewline, IsFile, IsPipeDrive;
  }

  lemma {:induction false} PathOpenRun(t: string, file: bool, m: Config)
    requires PathOpen(t, file, m)
    ensures var o := Run(t, Some(RelativePathStart), None, m);
      o.Done? && o.u.path != [] && (file ==> !IsPipeDrive(o.u.path[0]))
    decreases Rank(m.state), |t| + 1 - m.cursor
  {
    if InLoop(t, m) {
      StepProgress(t, Some(RelativePathStart), None, m);
      PathOpenStep(t, file, m);
      hide Step, PathOpen;
      PathOpenRun(t, file, Step(t, Some(RelativePathStart), None, m).next);
    }
  }

  /** The path of a printable object may be any that is there and does not begin with a drive spelled with '|'. */
  lemma PathCanonical(u: Url, v: Url)
    requires Canonical(u) && u.relative && v == u.(path := v.path) && Sound(v)
    requires v.path != [] && (IsFile(u.scheme) ==> !IsPipeDrive(v.path[0]))
    ensures Canonical(v)
  {
    hide GoodScheme, Sound, ColonsBracketed, OpenBracket, IsDrive, IsPipeDrive, ParseNat, KeptAtEnd, IsRelativeScheme,
      DefaultPort;
  }

  lemma PathnameKeeps(u: Url, t: string)
    requires Canonical(u)
    ensures var o := Apply(u, SetPathname(t)); o.Done? && Canonical(o.u)
  {
    hide Run, Canonical, Sound;
    assert Sound(u) && !u.invalid by { CanonicalSound(u); }
    if u.relative {
      ApplySound(u, SetPathname(t));
      SetterFrame(u, SetPathname(t));
      PathOpenRun(t, IsFile(u.scheme), Start(Some(RelativePathStart), u.(path := [])));
      PathCanonical(u, Apply(u, SetPathname(t)).u);
    }
  }

  lemma CanonicalSound(u: Url)
    requires Canonical(u)
    ensures Sound(u) && !u.invalid
  {}

  lemma QueryCanonical(u: Url, v: Url)
    requires Canonical(u) && u.relative && v == u.(query := v.query) && Sound(v)
    ensures Canonical(v)
  {
    hide HostPart, Sound, PathPart;
    assert HostPart(v) == HostPart(u) by { QueryHost(u, v); }
    assert PathPart(v) == PathPart(u) by { QueryHost(u, v); }
  }

  lemma QueryHost(u: Url, v: Url)
    requires v == u.(query := v.query, fragment := v.fragment)
    ensures HostPart(v) == HostPart(u) && PathPart(v) == PathPart(u)
  {}

  lemma SearchDone(u: Url, t: string)
    requires !u.invalid && u.relative
    ensures Apply(u, SetSearch(t)).Done?
  {
    hide Run;
    TailRun(Strip(t, '?'), Query, Start(Some(Query), u.(query := "?")));
  }

  lemma SearchKeeps(u: Url, t: string)
    requires Canonical(u)
    ensures var o := Apply(u, SetSearch(t)); o.Done? && Canonical(o.u)
  {
    hide Run, Canonical, Sound;
    assert Sound(u) && !u.invalid by { CanonicalSound(u); }
    if u.relative {
      ApplySound(u, SetSearch(t));
      SetterFrame(u, SetSearch(t));
      SearchDone(u, t);
      QueryCanonical(u, Apply(u, SetSearch(t)).u);
    }
  }

  /** The hash setter takes the text over, without a mark in front and without tabs and line ends. */
  lemma HashExact(u: Url, t: string)
    requires !u.invalid
    ensures Apply(u, SetHash(t)) == Done(u.(fragment := "#" + Squeeze(Strip(t, '#'))))
  {
    var text := Strip(t, '#');
    assert Slice(text, 0, |text|) == text;
    hide Run, Squeeze, Strip;
    FragmentScan(text, Some(Fragment), None, Start(Some(Fragment), u.(fragment := "#")));
  }

  lemma SqueezeStrip(t: string)
    ensures KeptAtEnd("#" + Squeeze(Strip(t, '#'))) <==> KeptAtEnd(Squeeze(t))
  {
    if t != "" && t[0] == '#' {
      assert Squeeze(t) == "#" + Squeeze(t[1..]);
    } else {
      assert Squeeze(t) != "" ==> ("#" + Squeeze(t))[|Squeeze(t)|] == Squeeze(t)[|Squeeze(t)| - 1];
    }
    hide Squeeze;
  }

  lemma FragmentCanonical(u: Url, v: Url)
    requires Canonical(u) && v == u.(fragment := v.fragment) && Sound(v)
    ensures Canonical(v) <==> KeptAtEnd(v.fragment)
  {
    hide HostPart, Sound, PathPart, KeptAtEnd;
    assert HostPart(v) == HostPart(u) by { QueryHost(u, v); }
    assert PathPart(v) == PathPart(u) by { QueryHost(u, v); }
  }

  // ---------- every setter ----------

  /** The argument leaves a canonical object canonical. The text is looked at before the call; a port that the original
      does not compute exactly is left aside. */
  predicate Keeps(u: Url, call: Call)
    requires !call.SetHref?
  {
    match call
    case SetProtocol(t) => HasScheme(t + ":") ==> SchemeFits(u, SchemeOf(t + ":"))
    case SetHost(t) =>
      u.relative ==>
        var (host, rest) := HostEnds(t, "");
        && HostFits(u, host)
        && (rest != "" && rest[0] == ':' ==> SmallPort(rest[1..]) && (IsFile(u.scheme) ==> !ReadsPort(u, rest[1..])))
    case SetHostname(t) => u.relative ==> HostFits(u, HostEnds(t, "").0)
    case SetPort(t) =>
      u.relative ==> SmallPort(t) && (ReadsPort(u, t) ==> !IsFile(u.scheme) && !OpenBracket(u.host))
    case SetPathname(_) => true
    case SetSearch(_) => true
    case SetHash(t) => KeptAtEnd(Squeeze(t))
  }

  predicate Stays(o: Outcome) { o.Done? && Canonical(o.u) }

  lemma ProtocolKeeps(u: Url, t: string)
    requires Canonical(u)
    ensures Stays(Apply(u, SetProtocol(t))) <==> Keeps(u, SetProtocol(t))
  {
    hide Canonical, Apply, HasScheme, SchemeFits;
    CanonicalSound(u);
    ProtocolExact(u, t);
    if HasScheme(t + ":") {
      SchemeOfGood(t + ":");
      SchemeCanonical(u, SchemeOf(t + ":"));
    }
  }

  lemma PortKeeps(u: Url, t: string)
    requires Canonical(u)
    ensures Stays(Apply(u, SetPort(t))) <==> Keeps(u, SetPort(t))
  {
    hide Canonical, Run, OpenBracket, Sound, ReadsPort, SmallPort;
    CanonicalSound(u);
    if u.relative {
      ApplySound(u, SetPort(t));
      PortExact(u, t);
      if SmallPort(t) { PortCanonical(u, t); }
    }
  }

  lemma HostnameKeeps(u: Url, t: string)
    requires Canonical(u)
    ensures Stays(Apply(u, SetHostname(t))) <==> Keeps(u, SetHostname(t))
  {
    hide Canonical, Run, HostEnds, HostFits, WithHost, Sound;
    CanonicalSound(u);
    if u.relative {
      ApplySound(u, SetHostname(t));
      HostnameExact(u, t);
      EmptyColons();
      HostEndsGood(t, "");
      HostCanonical(u, HostEnds(t, "").0);
    }
  }

  lemma EmptyColons()
    ensures ColonsBracketed("")
  {}

  /** Host and port together. */
  lemma HostPortCanonical(u: Url, b: string, t: string)
    requires Canonical(u) && u.relative && b != "" && ColonsBracketed(b) && !OpenBracket(b)
    requires Sound(WithPortOf(WithHost(u, b), t))
    ensures Canonical(WithPortOf(WithHost(u, b), t)) <==>
      HostFits(u, b) && (IsFile(u.scheme) ==> !ReadsPort(u, t))
  {
    LowerColons(b);
    LowerAt(b);
    LowerMarks2(b);
    LowerHost(b);
    ParseDecimal(ParseNat(LeadingDigits(t)));
    hide GoodScheme, Sound, ColonsBracketed, OpenBracket, IsDrive, IsPipeDrive, ParseNat, Decimal, LeadingDigits,
      KeptAtEnd, IsRelativeScheme, DefaultPort, Lower;
  }

  lemma HostKeeps(u: Url, t: string)
    requires Canonical(u)
    ensures Stays(Apply(u, SetHost(t))) <==> Keeps(u, SetHost(t))
  {
    hide Canonical, Run, HostEnds, WithHost, WithPortOf, Sound, OpenBracket, ReadsPort, SmallPort, ColonsBracketed;
    CanonicalSound(u);
    if u.relative {
      var (b, rest) := HostEnds(t, "");
      ApplySound(u, SetHost(t));
      HostExact(u, t);
      EmptyColons();
      HostEndsGood(t, "");
      HostEndsRest(t, "");
      if b == "" {
        if Canonical(INVALID) { CanonicalSound(INVALID); }
      } else if rest == "" || rest[0] != ':' {
        HostCanonical(u, b);
      } else if SmallPort(rest[1..]) {
        HostPortCanonical(u, b, rest[1..]);
      }
    }
  }

  lemma HashKeeps(u: Url, t: string)
    requires Canonical(u)
    ensures Stays(Apply(u, SetHash(t))) <==> Keeps(u, SetHash(t))
  {
    hide Canonical, Run, Squeeze, Strip, KeptAtEnd, Sound;
    CanonicalSound(u);
    ApplySound(u, SetHash(t));
    HashExact(u, t);
    SqueezeStrip(t);
    FragmentCanonical(u, u.(fragment := "#" + Squeeze(Strip(t, '#'))));
  }

  /** A component setter leaves a canonical object canonical exactly on these arguments. */
  lemma KeepsExact(u: Url, call: Call)
    requires Canonical(u) && !call.SetHref?
    ensures Stays(Apply(u, call)) <==> Keeps(u, call)
  {
    hide Canonical, Apply;
    match call {
      case SetProtocol(t) => ProtocolKeeps(u, t);
      case SetHost(t) => HostKeeps(u, t);
      case SetHostname(t) => HostnameKeeps(u, t);
      case SetPort(t) => PortKeeps(u, t);
      case SetPathname(t) => PathnameKeeps(u, t);
      case SetSearch(t) => SearchKeeps(u, t);
      case SetHash(t) => HashKeeps(u, t);
    }
    hide Keeps, Stays;
  }

  /** Construct, set, print, parse: after a setter on a canonical object the printed text gives the object back exactly
      when the argument is such a one. */
  lemma SetterSurvives(u: Url, call: Call, text: string)
    requires Canonical(u) && !call.SetHref? && Apply(u, call).Done? && !Apply(u, call).u.invalid
    ensures var v := Apply(u, call).u; Construct(Href(v, text), None) == Done(v) <==> Keeps(u, call)
  {
    hide Canonical, Apply, Keeps, Construct, Href;
    KeepsExact(u, call);
    CanonicalExact(Apply(u, call).u, text);
  }

  /** Calls with such arguments, each judged on the object as it then is. */
  predicate AllKeep(u: Url, calls: seq<Call>)
    decreases |calls|
  {
    calls != [] ==> !calls[0].SetHref? && Keeps(u, calls[0]) && AllKeep(Apply(u, calls[0]).u, calls[1..])
  }

  /** After any run of them the object is canonical, so it survives printing. */
  lemma {:induction false} CallsKeep(u: Url, calls: seq<Call>, text: string)
    requires Canonical(u) && AllKeep(u, calls)
    ensures Canonical(Calls(u, calls)) && Construct(Href(Calls(u, calls), text), None) == Done(Calls(u, calls))
    decreases |calls|
  {
    hide Canonical, Apply, Keeps, Construct, Href;
    if calls == [] {
      CanonicalSound(u);
      CanonicalExact(u, text);
    } else {
      KeepsExact(u, calls[0]);
      CallsKeep(Apply(u, calls[0]).u, calls[1..], text);
    }
  }

  /** A setter argument that is no such one: a fragment that ends with a space is lost when the printed text is trimmed,
      though assigning href its own value keeps it. */
  lemma SpaceLost(text: string)
    ensures var u := Head("http").(host := "h", path := [""]);
      var v := u.(fragment := "#a ");
      && Construct("http://h/", None) == Done(u) && Apply(u, SetHash("a ")) == Done(v) && !Keeps(u, SetHash("a "))
      && Construct(Href(v, text), None) != Done(v) && Apply(v, SetHref(Href(v, text))) == Done(v)
  {
    var u := Head("http").(host := "h", path := [""]);
    var v := u.(fragment := "#a ");
    PlainHttp(u, v);
    hide Canonical, Printable, Apply, Construct, Href, Keeps;
    ParseHref(u, "", None);
    HashExact(u, "a ");
    KeepsExact(u, SetHash("a "));
    CanonicalExact(v, text);
    HrefWriteBack(v, text);
  }

  lemma PlainHttp(u: Url, v: Url)
    requires u == Head("http").(host := "h", path := [""]) && v == u.(fragment := "#a ")
    ensures Canonical(u) && Href(u, "") == "http://h/" && Printable(v) && !Canonical(v)
    ensures "#" + Squeeze(Strip("a ", '#')) == "#a "
  {
    assert Lower("h") == "h" && Lower("") == "" && GoodSegment("") && Join([""], '/') == "";
    assert Squeeze("a ") == "a ";
    hide GoodSegment;
  }
}
