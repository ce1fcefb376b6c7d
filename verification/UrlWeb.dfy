/** What construction makes of a whole text with a scheme, part by part, for every text: the fields are given by what
    they spell, and no state of the parser is named. */
module UrlWeb {
  import opened Wrappers
  import opened Text
  import opened UrlMachine
  import opened UrlInvariant
  import opened UrlScan
  import opened UrlAuthority
  import opened UrlCursor
  import opened UrlCanonical
  import opened UrlBorrow
  import opened UrlKeeps
  import opened UrlOutcome
  import opened UrlEscape
  import opened UrlExact

  // ---------- the description ----------

  /** The hierarchical schemes other than file, with the ports that they need not name. */
  const PORTS: map<string, nat> :=
    map["ftp" := 21, "gopher" := 70, "http" := 80, "https" := 443, "ws" := 80, "wss" := 443]

  predicate Slash(c: char) { c == '/' || c == '\\' }

  /** How many slashes of either kind t begins with. */
  function SlashRun(t: string): (k: nat)
    ensures k <= |t|
  {
    if t != "" && Slash(t[0]) then 1 + SlashRun(t[1..]) else 0
  }

  /** Where the first slash, '?' or '#' of t is, or the length of t. */
  function PartEnd(t: string): (k: nat)
    ensures k <= |t|
  {
    if t == "" || Slash(t[0]) || t[0] == '?' || t[0] == '#' then 0 else 1 + PartEnd(t[1..])
  }

  /** The user information in an authority: the text before each '@', with "%40" after each piece but the first. */
  function UserText(a: string, more: bool): string
    decreases |a|
  {
    var k := Find(a, '@');
    if k == |a| then "" else a[..k] + (if more then "%40" else "") + UserText(a[k + 1..], true)
  }

  predicate PortText(p: string) { forall i :: 0 <= i < |p| ==> '0' <= p[i] <= '9' || Dropped(p[i]) }

  /** The port that is stored for the digits d. */
  function PortOf(scheme: string, d: string): string {
    if d == "" || (scheme in PORTS && PORTS[scheme] == ParseNat(d)) then "" else Decimal(ParseNat(d))
  }

  /** Path, query and fragment of o are those that t spells, on top of u. */
  ghost predicate PathRead(o: Outcome, u: Url, t: string) {
    var path := if t != "" && Slash(t[0]) then t[1..] else t;
    o.Done? && exists segments ::
      && SpellEach(segments, RawSegments(path, false))
      && TailStored(o.u, u.(path := PushSegments(IsFile(u.scheme), u.path, segments)), AfterPathText(path))
  }

  /** Host and port of o too: the host in lower case, the port without leading zeros and not the scheme's own. An empty
      host and a port with anything but digits make the object invalid. */
  ghost predicate HostRead(o: Outcome, u: Url, t: string) {
    var (host, rest) := HostEnds(t, "");
    if host == "" then o == Done(INVALID)
    else if rest == "" || rest[0] != ':' then PathRead(o, u.(host := Lower(host)), rest)
    else PortRead(o, u.(host := Lower(host)), rest[1..])
  }

  ghost predicate PortRead(o: Outcome, u: Url, t: string) {
    var k := PartEnd(t);
    var digits := Kept(t[..k]);
    if !PortText(t[..k]) then o == Done(INVALID)
    else if digits != "" && ParseNat(digits) >= MAX_EXACT then o.PortOverflow?
    else PathRead(o, u.(port := PortOf(u.scheme, digits)), t[k..])
  }

  /** The authority and all that follows it. */
  ghost predicate AuthorityRead(o: Outcome, scheme: string, t: string) {
    var a := t[..PartEnd(t)];
    exists name, password ::
      && UserSpelled(name, password, UserText(a, false))
      && HostRead(o, Head(scheme).(username := name, password := password), t[HostStart(a)..])
  }

  /** The text has such a scheme; against a base of the same scheme it goes on with two slashes. */
  predicate WebText(s: string, base: Option<Url>) {
    && HasScheme(s) && SchemeOf(s) in PORTS
    && (base.Some? && base.value.scheme == SchemeOf(s) ==>
          var t := s[SchemeEnd(s) + 1..]; |t| >= 2 && t[0] == '/' && t[1] == '/')
  }

  /** What follows the scheme and the slashes. */
  function AfterSlashes(s: string): string
    requires HasScheme(s)
  {
    var t := s[SchemeEnd(s) + 1..];
    t[SlashRun(t)..]
  }

  // ---------- scheme and slashes ----------

  lemma PortsExact(scheme: string)
    ensures IsRelativeScheme(scheme) <==> scheme in PORTS || scheme == "file"
    ensures scheme in PORTS ==> DefaultPort(scheme) == Some(PORTS[scheme]) && !IsFile(scheme)
  {}

  lemma IgnoreMove(input: string, base: Option<Url>, m: Config)
    requires m.state == AuthorityIgnoreSlashes && 0 <= m.cursor <= |input| && !m.u.invalid
    ensures Run(input, None, base, m) ==
      Run(input, None, base,
        if m.cursor < |input| && Slash(input[m.cursor]) then m.(cursor := m.cursor + 1) else m.(state := Authority))
  {
    Round(input, None, base, m,
      if m.cursor < |input| && Slash(input[m.cursor]) then m.(cursor := m.cursor + 1) else m.(state := Authority));
    hide Run;
  }

  lemma FirstMove(input: string, base: Option<Url>, m: Config)
    requires m.state in {AuthorityFirstSlash, AuthoritySecondSlash} && 0 <= m.cursor <= |input| && !m.u.invalid
    requires m.state == AuthoritySecondSlash ==> m.cursor > 0
    ensures Run(input, None, base, m) ==
      Run(input, None, base,
        if m.cursor < |input| && input[m.cursor] == '/' then
          m.(state := if m.state == AuthorityFirstSlash then AuthoritySecondSlash else AuthorityIgnoreSlashes,
             cursor := m.cursor + 1)
        else m.(state := AuthorityIgnoreSlashes))
  {
    Round(input, None, base, m,
      if m.cursor < |input| && input[m.cursor] == '/' then
        m.(state := if m.state == AuthorityFirstSlash then AuthoritySecondSlash else AuthorityIgnoreSlashes,
           cursor := m.cursor + 1)
      else m.(state := AuthorityIgnoreSlashes));
    hide Run;
  }

  lemma SlashRunFrom(input: string, k: int)
    requires 0 <= k <= |input|
    ensures SlashRun(input[k..]) ==
            if k < |input| && Slash(input[k]) then 1 + SlashRun(input[k + 1..]) else 0
  {
    if k < |input| { assert input[k..][0] == input[k] && input[k..][1..] == input[k + 1..]; }
  }

  /** The point in the authority, when the slashes ahead are skipped. */
  function Skipped(input: string, m: Config): Config
    requires 0 <= m.cursor <= |input|
  {
    m.(state := Authority, cursor := m.cursor + SlashRun(input[m.cursor..]))
  }

  lemma {:induction false} IgnoreRun(input: string, base: Option<Url>, m: Config)
    requires m.state == AuthorityIgnoreSlashes && 0 <= m.cursor <= |input| && !m.u.invalid
    ensures Run(input, None, base, m) == Run(input, None, base, Skipped(input, m))
    decreases |input| - m.cursor
  {
    hide Run, SlashRun;
    IgnoreMove(input, base, m);
    SlashRunFrom(input, m.cursor);
    if m.cursor < |input| && Slash(input[m.cursor]) { IgnoreRun(input, base, m.(cursor := m.cursor + 1)); }
  }

  /** The states before the authority skip every slash, of whatever kind and number. */
  lemma {:induction false} FirstRun(input: string, base: Option<Url>, m: Config)
    requires m.state in {AuthorityFirstSlash, AuthoritySecondSlash} && 0 <= m.cursor <= |input| && !m.u.invalid
    requires m.state == AuthoritySecondSlash ==> m.cursor > 0
    ensures Run(input, None, base, m) == Run(input, None, base, Skipped(input, m))
    decreases |input| - m.cursor
  {
    hide Run, SlashRun;
    FirstMove(input, base, m);
    SlashRunFrom(input, m.cursor);
    if m.cursor < |input| && input[m.cursor] == '/' {
      var n := m.(state := if m.state == AuthorityFirstSlash then AuthoritySecondSlash else AuthorityIgnoreSlashes,
                  cursor := m.cursor + 1);
      if m.state == AuthorityFirstSlash { FirstRun(input, base, n); } else { IgnoreRun(input, base, n); }
    } else {
      IgnoreRun(input, base, m.(state := AuthorityIgnoreSlashes));
    }
  }

  /** Against a base of the same scheme. */
  lemma SameRun(input: string, base: Option<Url>, m: Config)
    requires m.state == RelativeOrAuthority && 0 <= m.cursor && m.cursor + 2 <= |input| && !m.u.invalid
    requires input[m.cursor] == '/' && input[m.cursor + 1] == '/'
    ensures Run(input, None, base, m) == Run(input, None, base, Skipped(input, m))
  {
    hide Run, SlashRun;
    var n := m.(state := AuthorityIgnoreSlashes, cursor := m.cursor + 1);
    Round(input, None, base, m, n);
    SlashRunFrom(input, m.cursor);
    IgnoreRun(input, base, n);
  }

  /** The start of an authority. */
  function AtAuthority(s: string): Config
    requires HasScheme(s)
  {
    var k := SchemeEnd(s) + 1;
    Config(Authority, k + SlashRun(s[k..]), "", false, false, Head(SchemeOf(s)))
  }

  lemma SlashesPassed(s: string, base: Option<Url>)
    requires WebText(s, base)
    ensures Parse(s, None, base, BLANK) == Run(s, None, base, AtAuthority(s))
  {
    hide Run, Parse, SchemeEnd, Lower, SlashRun;
    SchemeRead(s, base);
    PortsExact(SchemeOf(s));
    var k := SchemeEnd(s) + 1;
    var m := AfterScheme(s, base);
    AfterWeb(s, base);
    if m.state == RelativeOrAuthority {
      assert s[k..][0] == s[k] && s[k..][1] == s[k + 1];
      SameRun(s, base, m);
    } else {
      FirstRun(s, base, m);
    }
  }

  lemma AfterWeb(s: string, base: Option<Url>)
    requires WebText(s, base)
    ensures var m := AfterScheme(s, base);
      && m == Config(m.state, SchemeEnd(s) + 1, "", false, false, Head(SchemeOf(s)))
      && m.state ==
         if base.Some? && base.value.scheme == SchemeOf(s) then RelativeOrAuthority else AuthorityFirstSlash
  {
    PortsExact(SchemeOf(s));
    hide SchemeEnd, DefaultPort, SchemeOf;
  }

  // ---------- user information ----------

  lemma {:induction false} UserInfoSplit(name: string, password: Option<string>, s: string, t: string)
    ensures var (n, p) := UserInfo(name, password, s); UserInfo(name, password, s + t) == UserInfo(n, p, t)
    decreases |t|
  {
    hide UserInfoChar;
    if t == "" {
      assert s + t == s;
    } else {
      UserInfoSplit(name, password, s, t[..|t| - 1]);
      assert (s + t)[..|s + t| - 1] == s + t[..|t| - 1];
    }
  }

  lemma {:induction false} ReadUserText(name: string, password: Option<string>, seen: bool, a: string)
    ensures ReadUser(name, password, seen, a) == UserInfo(name, password, UserText(a, seen))
    decreases |a|
  {
    hide UserInfo, Find;
    var k := Find(a, '@');
    if k == |a| {
      NoUser(name, password);
    } else {
      var piece := if seen then a[..k] + "%40" else a[..k];
      var (n, p) := UserInfo(name, password, piece);
      assert piece == a[..k] + (if seen then "%40" else "");
      ReadUserText(n, p, true, a[k + 1..]);
      UserInfoSplit(name, password, piece, UserText(a[k + 1..], true));
    }
  }

  lemma NoUser(name: string, password: Option<string>)
    ensures UserInfo(name, password, "") == (name, password)
  {}

  lemma {:induction false} UserTextAscii(a: string, more: bool)
    requires Ascii(a)
    ensures Ascii(UserText(a, more))
    decreases |a|
  {
    hide Find;
    var k := Find(a, '@');
    if k < |a| { UserTextAscii(a[k + 1..], true); }
  }

  lemma {:induction false} PartEndExact(t: string)
    ensures forall i :: 0 <= i < PartEnd(t) ==> !IsDelimiter(t[i])
    ensures PartEnd(t) < |t| ==> IsDelimiter(t[PartEnd(t)])
  {
    if t != "" && !IsDelimiter(t[0]) { PartEndExact(t[1..]); }
  }

  // ---------- from the authority to the end ----------

  lemma PathStart(input: string, base: Option<Url>, m: Config)
    requires m.state == RelativePathStart && 0 <= m.cursor <= |input| && !m.u.invalid
    requires m.cursor > 0
    ensures Run(input, None, base, m) ==
      Run(input, None, base,
        m.(state := RelativePath,
           cursor := if m.cursor < |input| && Slash(input[m.cursor]) then m.cursor + 1 else m.cursor))
  {
    Round(input, None, base, m,
      m.(state := RelativePath,
         cursor := if m.cursor < |input| && Slash(input[m.cursor]) then m.cursor + 1 else m.cursor));
    hide Run;
  }

  /** From the end of the authority on. */
  lemma PathReads(input: string, base: Option<Url>, m: Config)
    requires m.state == RelativePathStart && 0 < m.cursor <= |input| && !m.u.invalid && m.buffer == "" && Ascii(input)
    ensures PathRead(Run(input, None, base, m), m.u, input[m.cursor..])
  {
    hide Run, Spells, TailStored, PushSegments, Run;
    var t := input[m.cursor..];
    assert t != "" ==> t[0] == input[m.cursor];
    var n := m.(state := RelativePath,
                cursor := if m.cursor < |input| && Slash(input[m.cursor]) then m.cursor + 1 else m.cursor);
    PathStart(input, base, m);
    SpellsNone();
    var segments := PathFrom(input, None, base, n, "");
    var path := if t != "" && Slash(t[0]) then t[1..] else t;
    assert path == input[n.cursor..];
    var raw := RawSegments(path, false);
    assert "" + raw[0] == raw[0] && Before("", raw) == raw;
  }

  predicate AtPort(input: string, m: Config) {
    m.state == Port && 0 < m.cursor <= |input| && !m.u.invalid && AllDigits(m.buffer) && m.u.port == ""
  }

  /** One character of a port: a digit counts, tabs and line ends do not, another one makes the object invalid. */
  lemma PortMove(input: string, base: Option<Url>, m: Config)
    requires AtPort(input, m) && m.cursor < |input| && !IsDelimiter(input[m.cursor])
    ensures var c := input[m.cursor];
      Run(input, None, base, m) ==
        if Digit(c) then Run(input, None, base, m.(cursor := m.cursor + 1, buffer := m.buffer + [c]))
        else if Dropped(c) then Run(input, None, base, m.(cursor := m.cursor + 1))
        else Done(INVALID)
  {
    hide ParseNat, Decimal, DefaultPort;
    var c := input[m.cursor];
    if Digit(c) {
      Round(input, None, base, m, m.(cursor := m.cursor + 1, buffer := m.buffer + [c]));
    } else if Dropped(c) {
      Round(input, None, base, m, m.(cursor := m.cursor + 1));
    } else {
      Round(input, None, base, m, m.(cursor := m.cursor + 1, u := INVALID));
    }
  }

  lemma PortStops(input: string, base: Option<Url>, m: Config)
    requires AtPort(input, m) && (m.cursor < |input| ==> IsDelimiter(input[m.cursor])) && m.u.scheme in PORTS
    ensures Run(input, None, base, m) ==
        if m.buffer != "" && ParseNat(m.buffer) >= MAX_EXACT then PortOverflow(m.u)
        else Run(input, None, base,
               m.(state := RelativePathStart, buffer := "", u := m.u.(port := PortOf(m.u.scheme, m.buffer))))
  {
    PortsExact(m.u.scheme);
    assert m.u.(port := "") == m.u;
    hide ParseNat, Decimal, DefaultPort;
    if m.buffer == "" || ParseNat(m.buffer) < MAX_EXACT {
      Round(input, None, base, m,
        m.(state := RelativePathStart, buffer := "", u := m.u.(port := PortOf(m.u.scheme, m.buffer))));
    }
  }

  lemma PartEndFrom(input: string, k: int)
    requires 0 <= k <= |input|
    ensures PartEnd(input[k..]) ==
            if k < |input| && !IsDelimiter(input[k]) then 1 + PartEnd(input[k + 1..]) else 0
  {
    if k < |input| { assert input[k..][0] == input[k] && input[k..][1..] == input[k + 1..]; }
  }

  /** The description of a port, when the digits d have been read of it. */
  ghost predicate PortGoesOn(o: Outcome, u: Url, d: string, t: string) {
    var k := PartEnd(t);
    var digits := d + Kept(t[..k]);
    if !PortText(t[..k]) then o == Done(INVALID)
    else if digits != "" && ParseNat(digits) >= MAX_EXACT then o.PortOverflow?
    else PathRead(o, u.(port := PortOf(u.scheme, digits)), t[k..])
  }

  lemma PortNext(o: Outcome, u: Url, d: string, t: string)
    requires t != "" && !IsDelimiter(t[0])
    requires var c := t[0];
      if Digit(c) then PortGoesOn(o, u, d + [c], t[1..])
      else if Dropped(c) then PortGoesOn(o, u, d, t[1..])
      else o == Done(INVALID)
    ensures PortGoesOn(o, u, d, t)
  {
    hide PathRead, ParseNat, PortOf;
    var k := PartEnd(t);
    assert t[..k] == [t[0]] + t[1..][..k - 1] && t[..k][1..] == t[1..][..k - 1] && t[k..] == t[1..][k - 1..];
    assert d + ([t[0]] + Kept(t[..k][1..])) == d + [t[0]] + Kept(t[..k][1..]);
    assert "" + Kept(t[..k][1..]) == Kept(t[..k][1..]);
    PortTextCons(t[0], t[1..][..k - 1]);
  }

  lemma PortTextCons(c: char, p: string)
    ensures PortText([c] + p) <==> ('0' <= c <= '9' || Dropped(c)) && PortText(p)
  {
    hide Dropped;
    assert ([c] + p)[0] == c;
    forall i | 0 <= i < |p| ensures ([c] + p)[i + 1] == p[i] {}
    if PortText([c] + p) {
      forall i | 0 <= i < |p| ensures '0' <= p[i] <= '9' || Dropped(p[i]) { assert ([c] + p)[i + 1] == p[i]; }
    }
  }

  lemma {:induction false} PortReads(input: string, base: Option<Url>, m: Config)
    requires AtPort(input, m) && m.u.scheme in PORTS && Ascii(input)
    ensures PortGoesOn(Run(input, None, base, m), m.u, m.buffer, input[m.cursor..])
    decreases |input| - m.cursor
  {
    hide Run, PathRead, ParseNat, PortOf, PortText;
    var t := input[m.cursor..];
    assert t != "" ==> t[0] == input[m.cursor] && t[1..] == input[m.cursor + 1..];
    if t == "" || IsDelimiter(t[0]) {
      PortStops(input, base, m);
      PortDone(t, m.buffer);
      if m.buffer == "" || ParseNat(m.buffer) < MAX_EXACT {
        PathReads(input, base,
          m.(state := RelativePathStart, buffer := "", u := m.u.(port := PortOf(m.u.scheme, m.buffer))));
      }
    } else {
      PortMove(input, base, m);
      if Digit(t[0]) {
        PortReads(input, base, m.(cursor := m.cursor + 1, buffer := m.buffer + [t[0]]));
      } else if Dropped(t[0]) {
        PortReads(input, base, m.(cursor := m.cursor + 1));
      }
      PortNext(Run(input, None, base, m), m.u, m.buffer, t);
    }
  }

  lemma PortDone(t: string, d: string)
    requires t == "" || IsDelimiter(t[0])
    ensures PartEnd(t) == 0 && t[..0] == "" && t[0..] == t && d + Kept("") == d && PortText("")
  {}

  // ---------- the host ----------

  lemma HostMove(input: string, n: Config)
    requires AtHostState(None, n) && 0 < n.cursor <= |input|
    requires n.cursor < |input| ==> IsDelimiter(input[n.cursor]) || (input[n.cursor] == ':' && !n.seenBracket)
    ensures n.buffer == "" ==> Run(input, None, None, n) == Done(INVALID)
    ensures n.buffer != "" && n.cursor < |input| && input[n.cursor] == ':' ==>
      Run(input, None, None, n) ==
      Run(input, None, None, n.(state := Port, cursor := n.cursor + 1, buffer := "", u := WithHost(n.u, n.buffer)))
    ensures n.buffer != "" && (n.cursor == |input| || input[n.cursor] != ':') ==>
      Run(input, None, None, n) ==
      Run(input, None, None, n.(state := RelativePathStart, buffer := "", u := WithHost(n.u, n.buffer)))
  {
    hide OpenBracket;
    var c, v := At(input, n.cursor), WithHost(n.u, n.buffer);
    if c == Some(':') {
      Round(input, None, None, n, n.(state := Port, cursor := n.cursor + 1, buffer := "", u := v));
    } else {
      Round(input, None, None, n, n.(state := RelativePathStart, buffer := "", u := v));
    }
  }

  /** From the start of the host on. */
  lemma HostReads(input: string, m: Config)
    requires m.state == Host && m.buffer == "" && !m.seenBracket && !m.u.invalid && 0 < m.cursor <= |input|
    requires Ascii(input) && m.u.scheme in PORTS && m.u.port == ""
    ensures HostRead(Run(input, None, None, m), m.u, input[m.cursor..])
  {
    hide Run, OpenBracket, HostEnds, PathRead, PortOf, ParseNat;
    var t := input[m.cursor..];
    assert !OpenBracket("") by { NoBracket(); }
    HostSweep(input, None, m);
    HostEndsRest(t, "");
    var (b, rest) := HostEnds(t, "");
    var n := m.(cursor := |input| - |rest|, buffer := b, seenBracket := OpenBracket(b));
    assert n == Swept(input, m) && rest == input[n.cursor..];
    HostMove(input, n);
    if b != "" {
      var v := WithHost(m.u, b);
      if rest == "" || rest[0] != ':' {
        PathReads(input, None, n.(state := RelativePathStart, buffer := "", u := v));
      } else {
        var p := n.(state := Port, cursor := n.cursor + 1, buffer := "", u := v);
        assert rest[1..] == input[p.cursor..];
        PortReads(input, None, p);
        PortStart(Run(input, None, None, p), v, rest[1..]);
      }
    }
  }

  lemma NoBracket()
    ensures !OpenBracket("")
  {}

  lemma PortStart(o: Outcome, u: Url, t: string)
    requires PortGoesOn(o, u, "", t)
    ensures PortRead(o, u, t)
  {
    hide PathRead, ParseNat, PortOf, PortText;
    assert "" + Kept(t[..PartEnd(t)]) == Kept(t[..PartEnd(t)]);
  }

  // ---------- the theorem ----------

  /** From the start of the authority on. */
  lemma AuthorityReads(input: string, base: Option<Url>, m: Config)
    requires m == Config(Authority, m.cursor, "", false, false, Head(m.u.scheme)) && 0 < m.cursor <= |input|
    requires Ascii(input) && m.u.scheme in PORTS
    ensures AuthorityRead(Run(input, None, base, m), m.u.scheme, input[m.cursor..])
  {
    hide Run, HostRead, UserSpelled, ReadUser, UserText, AuthorityAhead, HostStart, PartEnd, IsDelimiter, Slice;
    var t := input[m.cursor..];
    var a := t[..PartEnd(t)];
    var e := m.cursor + |a|;
    PartEndExact(t);
    Ahead(input, m, e, a);
    AuthorityToHost(input, None, base, m, e);
    var n := AtHost(m, a);
    ReadUserText("", None, false, a);
    UserTextAscii(a, false);
    UserExact(UserText(a, false));
    BaseFree(input, base, None, n);
    HostReads(input, n);
    assert input[n.cursor..] == t[HostStart(a)..];
  }

  lemma Ahead(input: string, m: Config, e: int, a: string)
    requires m.state == Authority && m.buffer == "" && !m.u.invalid && 0 <= m.cursor <= e <= |input|
    requires a == input[m.cursor..e] && e - m.cursor == PartEnd(input[m.cursor..])
    requires var t := input[m.cursor..];
      (forall i :: 0 <= i < PartEnd(t) ==> !IsDelimiter(t[i])) && (PartEnd(t) < |t| ==> IsDelimiter(t[PartEnd(t)]))
    ensures AuthorityAhead(input, m, e) && Slice(input, m.cursor, e) == a
  {
    var t := input[m.cursor..];
    forall i | m.cursor <= i < e ensures !IsDelimiter(input[i]) { assert t[i - m.cursor] == input[i]; }
    assert e < |input| ==> t[PartEnd(t)] == input[e];
  }

  /** Construction on any ASCII text with a hierarchical scheme other than file, any number and kind of slashes, and
      whatever follows: all fields of the object, or that it is invalid. */
  lemma ConstructWeb(text: string, base: Option<Url>)
    requires Ascii(text) && WebText(Trim(text), base)
    ensures AuthorityRead(Construct(text, base), SchemeOf(Trim(text)), AfterSlashes(Trim(text)))
  {
    hide Parse, Run, AuthorityRead, SlashRun, SchemeEnd;
    var s := Trim(text);
    TrimAscii(text);
    SlashesPassed(s, base);
    var m := AtAuthority(s);
    assert s[m.cursor..] == AfterSlashes(s);
    AuthorityReads(s, base, m);
    ParseIsRun(s, base);
  }

  lemma ParseIsRun(s: string, base: Option<Url>)
    ensures Parse(s, None, base, BLANK) == Run(s, None, base, Start(None, BLANK))
  {}

  lemma TrimAscii(s: string)
    requires Ascii(s)
    ensures Ascii(Trim(s))
  {
    TrimLeftAscii(s);
    TrimRightAscii(TrimLeft(s));
  }

  lemma {:induction false} TrimLeftAscii(s: string)
    requires Ascii(s)
    ensures Ascii(TrimLeft(s))
  {
    if s != "" && IsTrimmed(s[0]) { TrimLeftAscii(s[1..]); }
  }

  lemma {:induction false} TrimRightAscii(s: string)
    requires Ascii(s)
    ensures Ascii(TrimRight(s))
    decreases |s|
  {
    if s != "" && IsTrimmed(s[|s| - 1]) { TrimRightAscii(s[..|s| - 1]); }
  }

  // ---------- file URLs ----------

  /** What a file URL stores of the host and of what follows it: a drive begins the path. */
  ghost predicate FileStored(o: Outcome, host: string, rest: string) {
    if IsDrive(host) then
      o.Done? && exists segments ::
        && SpellEach(segments, Before(host, RawSegments(rest, false)))
        && TailStored(o.u, Head("file").(path := PushSegments(true, [], segments)), AfterPathText(rest))
    else PathRead(o, Head("file").(host := Lower(host)), rest)
  }

  /** What follows the two slashes of a file URL. */
  ghost predicate FileRead(o: Outcome, t: string) { FileStored(o, Kept(t[..PartEnd(t)]), t[PartEnd(t)..]) }

  lemma DriveSpelled(d: string)
    requires IsDrive(d)
    ensures Spells(d, d, false)
  {
    assert d[1..][0] == d[1] && d[1..][1..] == "";
    assert Literal(d[0], false) && Literal(d[1], false) && !Dropped(d[0]) && !Dropped(d[1]);
  }

  lemma PathGoesOn(input: string, base: Option<Url>, m: Config, t: string)
    requires m.state == RelativePath && 0 <= m.cursor <= |input| && !m.u.invalid && m.buffer == "" && Ascii(input)
    requires input[m.cursor..] == if t != "" && Slash(t[0]) then t[1..] else t
    ensures PathRead(Run(input, None, base, m), m.u, t)
  {
    hide Run, Spells, TailStored, PushSegments;
    SpellsNone();
    var segments := PathFrom(input, None, base, m, "");
    var raw := RawSegments(input[m.cursor..], false);
    assert "" + raw[0] == raw[0] && Before("", raw) == raw;
  }

  lemma FileHostMove(input: string, base: Option<Url>, m: Config)
    requires m.state == FileHost && 0 < m.cursor < |input| && !IsDelimiter(input[m.cursor]) && !m.u.invalid
    ensures var c := input[m.cursor];
      Run(input, None, base, m) ==
      Run(input, None, base, m.(cursor := m.cursor + 1, buffer := m.buffer + if Dropped(c) then "" else [c]))
  {
    hide IsDrive, WithHost;
    var c := input[m.cursor];
    assert m.buffer + "" == m.buffer;
    Round(input, None, base, m, m.(cursor := m.cursor + 1, buffer := m.buffer + if Dropped(c) then "" else [c]));
    hide Run;
  }

  lemma FileHostStops(input: string, base: Option<Url>, m: Config)
    requires m.state == FileHost && 0 < m.cursor <= |input| && EndsPart(At(input, m.cursor)) && m.u == Head("file")
    ensures Run(input, None, base, m) ==
      Run(input, None, base,
        if IsDrive(m.buffer) then m.(state := RelativePath)
        else m.(state := RelativePathStart, buffer := "", u := m.u.(host := Lower(m.buffer))))
  {
    assert Lower("") == "";
    Round(input, None, base, m,
      if IsDrive(m.buffer) then m.(state := RelativePath)
      else m.(state := RelativePathStart, buffer := "", u := m.u.(host := Lower(m.buffer))));
    hide Run;
  }

  /** The description, when b has been read of the host. */
  ghost predicate FileGoesOn(o: Outcome, b: string, t: string) {
    FileStored(o, b + Kept(t[..PartEnd(t)]), t[PartEnd(t)..])
  }

  lemma FileNext(o: Outcome, b: string, t: string)
    requires t != "" && !IsDelimiter(t[0]) && FileGoesOn(o, b + if Dropped(t[0]) then "" else [t[0]], t[1..])
    ensures FileGoesOn(o, b, t)
  {
    hide FileStored, Kept, Dropped, PartEnd;
    PartEndFrom(t, 0);
    assert t[0..] == t;
    KeptFirst(t, PartEnd(t), b);
    assert t[PartEnd(t)..] == t[1..][PartEnd(t) - 1..];
  }

  lemma {:induction false} FileHostReads(input: string, base: Option<Url>, m: Config)
    requires m == Config(FileHost, m.cursor, m.buffer, false, false, Head("file")) && 0 < m.cursor <= |input|
    requires Ascii(input)
    ensures FileGoesOn(Run(input, None, base, m), m.buffer, input[m.cursor..])
    decreases |input| - m.cursor
  {
    hide Run, PathRead, IsDrive, Dropped, Lower;
    var t := input[m.cursor..];
    assert t != "" ==> t[0] == input[m.cursor] && t[1..] == input[m.cursor + 1..];
    if t == "" || IsDelimiter(t[0]) {
      FileHostStops(input, base, m);
      FileDone(input, base, m, t);
    } else {
      FileHostMove(input, base, m);
      FileHostReads(input, base,
        m.(cursor := m.cursor + 1, buffer := m.buffer + if Dropped(t[0]) then "" else [t[0]]));
      FileNext(Run(input, None, base, m), m.buffer, t);
    }
  }

  lemma FileDone(input: string, base: Option<Url>, m: Config, t: string)
    requires m == Config(FileHost, m.cursor, m.buffer, false, false, Head("file")) && 0 < m.cursor <= |input|
    requires Ascii(input) && t == input[m.cursor..] && (t == "" || IsDelimiter(t[0]))
    ensures var o := Run(input, None, base,
        if IsDrive(m.buffer) then m.(state := RelativePath)
        else m.(state := RelativePathStart, buffer := "", u := m.u.(host := Lower(m.buffer))));
      FileGoesOn(o, m.buffer, t)
  {
    hide Run, PathRead, IsDrive, Lower, Spells, TailStored, PushSegments;
    PortDone(t, m.buffer);
    if IsDrive(m.buffer) {
      DriveSpelled(m.buffer);
      var segments := PathFrom(input, None, base, m.(state := RelativePath), m.buffer);
    } else {
      PathReads(input, base, m.(state := RelativePathStart, buffer := "", u := m.u.(host := Lower(m.buffer))));
    }
  }

  /** A file URL that does not need a base. */
  predicate FileText(s: string) { HasScheme(s) && SchemeOf(s) == "file" && !NeedsBase(s) }

  lemma AfterFileScheme(s: string, base: Option<Url>)
    requires HasScheme(s) && SchemeOf(s) == "file"
    ensures AfterScheme(s, base) == Config(Relative, SchemeEnd(s) + 1, "", false, false, Head("file"))
  {}

  lemma FileMove(s: string, base: Option<Url>, m: Config)
    requires m == Config(Relative, m.cursor, "", false, false, Head("file")) && 0 < m.cursor < |s|
    requires Slash(s[m.cursor]) || StartsWithDrive(At(s, m.cursor), At(s, m.cursor + 1), At(s, m.cursor + 2))
    ensures Run(s, None, base, m) ==
      Run(s, None, base,
        if !Slash(s[m.cursor]) then m.(state := RelativePath)
        else if m.cursor + 1 < |s| && Slash(s[m.cursor + 1]) then m.(state := FileHost, cursor := m.cursor + 2)
        else m.(state := RelativePath, cursor := m.cursor + 1))
  {
    if !Slash(s[m.cursor]) {
      Round(s, None, base, m, m.(state := RelativePath));
    } else {
      var n := m.(state := RelativeSlash, cursor := m.cursor + 1);
      Round(s, None, base, m, n);
      Round(s, None, base, n,
        if m.cursor + 1 < |s| && Slash(s[m.cursor + 1]) then n.(state := FileHost, cursor := m.cursor + 2)
        else n.(state := RelativePath));
    }
    hide Run;
  }

  /** Construction on any ASCII file URL that needs no base: with two slashes a host or a drive comes first, with one
      slash or a lone drive letter the path. */
  lemma ConstructFile(text: string, base: Option<Url>)
    requires Ascii(text) && FileText(Trim(text))
    ensures var t := Trim(text)[SchemeEnd(Trim(text)) + 1..];
      if |t| >= 2 && Slash(t[0]) && Slash(t[1]) then FileRead(Construct(text, base), t[2..])
      else PathRead(Construct(text, base), Head("file"), t)
  {
    hide Parse, Run, SchemeEnd, PathRead, StartsWithDrive;
    var s := Trim(text);
    TrimAscii(text);
    SchemeRead(s, base);
    AfterFileScheme(s, base);
    var k := SchemeEnd(s) + 1;
    var m := AfterScheme(s, base);
    assert k < |s| by { DriveThere(s); }
    FileMove(s, base, m);
    var t := s[k..];
    assert t[0] == s[k] && (|t| >= 2 ==> t[1] == s[k + 1] && t[2..] == s[k + 2..]);
    if !Slash(t[0]) {
      PathGoesOn(s, base, m.(state := RelativePath), t);
    } else if |t| >= 2 && Slash(t[1]) {
      FileHostReads(s, base, m.(state := FileHost, cursor := k + 2));
      FileStart(Construct(text, base), t[2..]);
    } else {
      PathGoesOn(s, base, m.(state := RelativePath, cursor := k + 1), t);
    }
  }

  lemma DriveThere(s: string)
    requires FileText(s)
    ensures var k := SchemeEnd(s) + 1;
      k < |s| && (Slash(s[k]) || StartsWithDrive(At(s, k), At(s, k + 1), At(s, k + 2)))
  {}

  lemma FileStart(o: Outcome, t: string)
    requires FileGoesOn(o, "", t)
    ensures FileRead(o, t)
  {
    hide FileStored;
    assert "" + Kept(t[..PartEnd(t)]) == Kept(t[..PartEnd(t)]);
  }

  // ---------- URLs without hierarchy ----------

  /** Construction on any ASCII text with a scheme without hierarchy, whose data has no '?': scheme, data and
      fragment. */
  lemma ConstructOpaque(text: string, base: Option<Url>)
    requires var s := Trim(text);
      && Ascii(text) && HasScheme(s) && SchemeOf(s) !in PORTS && SchemeOf(s) != "file"
      && '?' !in UpToHash(s[SchemeEnd(s) + 1..])
    ensures var s, o := Trim(text), Construct(text, base);
      var t := s[SchemeEnd(s) + 1..];
      o.Done? && exists v ::
        DataSpelled(v, BLANK.(scheme := SchemeOf(s)), UpToHash(t)) && FragmentStored(o.u, v, t)
  {
    hide Parse, Run, SchemeEnd, Find;
    var s := Trim(text);
    TrimAscii(text);
    SchemeRead(s, base);
    PortsExact(SchemeOf(s));
    var m := AfterScheme(s, base);
    SpellsNone();
    DataFrom(s, base, m, "");
    var t := s[m.cursor..];
    assert "" + UpToHash(t) == UpToHash(t);
  }

  // ---------- trimming and hosts ----------

  predicate AllTrimmed(s: string) { forall i :: 0 <= i < |s| ==> s[i] in " \t\r\n\U{C}" }

  lemma {:induction false} TrimLeftExact(s: string) returns (k: nat)
    ensures k <= |s| && AllTrimmed(s[..k]) && TrimLeft(s) == s[k..]
    ensures k < |s| ==> s[k] !in " \t\r\n\U{C}"
  {
    k := 0;
    if s != "" && IsTrimmed(s[0]) {
      var j := TrimLeftExact(s[1..]);
      k := j + 1;
      assert s[..k] == [s[0]] + s[1..][..j] && s[1..][j..] == s[k..];
    }
  }

  lemma {:induction false} TrimRightExact(s: string) returns (k: nat)
    ensures k <= |s| && AllTrimmed(s[k..]) && TrimRight(s) == s[..k]
    ensures k > 0 ==> s[k - 1] !in " \t\r\n\U{C}"
    decreases |s|
  {
    k := |s|;
    if s != "" && IsTrimmed(s[|s| - 1]) {
      k := TrimRightExact(s[..|s| - 1]);
      assert s[k..] == s[..|s| - 1][k..] + [s[|s| - 1]] && s[..|s| - 1][..k] == s[..k];
    }
  }

  /** Trimming takes off all blanks, tabs, line ends and form feeds at both ends, and nothing else. */
  lemma TrimExact(s: string) returns (i: nat, j: nat)
    ensures i <= j <= |s| && Trim(s) == s[i..j] && AllTrimmed(s[..i]) && AllTrimmed(s[j..])
    ensures i < j ==> s[i] !in " \t\r\n\U{C}" && s[j - 1] !in " \t\r\n\U{C}"
  {
    i := TrimLeftExact(s);
    var k := TrimRightExact(s[i..]);
    j := i + k;
    assert s[i..][..k] == s[i..j] && s[i..][k..] == s[j..];
  }

  /** A bracket is open after b when some '[' has no ']' after it. */
  lemma {:induction false} OpenBracketExact(b: string)
    ensures OpenBracket(b) <==> exists i :: 0 <= i < |b| && b[i] == '[' && ']' !in b[i..]
    decreases |b|
  {
    if b != "" {
      var most, c := b[..|b| - 1], b[|b| - 1];
      OpenBracketExact(most);
      forall i | 0 <= i < |most| ensures b[i..] == most[i..] + [c] {}
      assert b[|b| - 1..] == [c];
      if c == '[' {
        assert b[|b| - 1] == '[' && ']' !in b[|b| - 1..];
      } else {
        if i :| 0 <= i < |most| && most[i] == '[' && ']' !in most[i..] && c != ']' {
          assert b[i] == '[' && ']' !in b[i..];
        }
        if i :| 0 <= i < |b| && b[i] == '[' && ']' !in b[i..] {
          assert i < |most| && most[i] == '[' && c in b[i..];
        }
      }
    }
  }

  lemma KeptFirst(t: string, k: nat, b: string)
    requires 0 < k <= |t|
    ensures b + Kept(t[..k]) == b + (if Dropped(t[0]) then "" else [t[0]]) + Kept(t[1..][..k - 1])
  {
    assert t[..k][0] == t[0] && t[..k][1..] == t[1..][..k - 1];
    hide Dropped;
  }

  /** The host is what stands before the first delimiter or colon outside brackets, tabs and line ends left out. */
  lemma {:induction false} HostEndsExact(t: string, b: string)
    requires ColonsBracketed(b)
    ensures var (host, rest) := HostEnds(t, b);
      && |rest| <= |t| && rest == t[|t| - |rest|..]
      && host == b + Kept(t[..|t| - |rest|]) && ColonsBracketed(host)
      && (forall i :: 0 <= i < |t| - |rest| ==> !IsDelimiter(t[i]))
      && (rest != "" ==> IsDelimiter(rest[0]) || (rest[0] == ':' && !OpenBracket(host)))
    decreases |t|
  {
    hide OpenBracket, ColonsBracketed, HostEnds, IsDelimiter, Kept;
    HostEndsRest(t, b);
    HostEndsGood(t, b);
    HostEndsNext(t, b);
    if t == "" || IsDelimiter(t[0]) || (t[0] == ':' && !OpenBracket(b)) {
      assert t[..0] == "";
      KeptNone(b);
    } else {
      DroppedExact(t[0]);
      var d := if IsTabOrNewline(t[0]) then b else b + [t[0]];
      if !IsTabOrNewline(t[0]) { ColonsPush(b, t[0]); }
      HostEndsExact(t[1..], d);
      var (host, rest) := HostEnds(t, b);
      KeptFirst(t, |t| - |rest|, b);
      assert b + "" == b;
    }
  }

  lemma KeptNone(b: string)
    ensures b + Kept("") == b
  {}
}
