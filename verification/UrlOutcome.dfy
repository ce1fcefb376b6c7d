/** When the parser raises an exception, as a condition on text and base that can be checked before the call. */
module UrlOutcome {
  import opened Wrappers
  import opened Text
  import opened UrlMachine
  import opened UrlInvariant
  import opened UrlScan
  import opened UrlBorrow

  // ---------- the condition ----------

  /** The scheme that the text names, in lower case. */
  function SchemeOf(s: string): string { Lower(s[..SchemeEnd(s)]) }

  /** The text is a file URL that needs a base: after the scheme it goes on neither with a slash nor with a drive
      letter that stands alone. */
  predicate NeedsBase(s: string) {
    var k := SchemeEnd(s);
    && HasScheme(s) && IsFile(SchemeOf(s))
    && !IsSlash(At(s, k + 1)) && !StartsWithDrive(At(s, k + 1), At(s, k + 2), At(s, k + 3))
  }

  /** The text has a scheme without hierarchy, and a question mark before any fragment mark. */
  predicate HasOpaqueQuery(s: string) {
    && HasScheme(s) && !IsRelativeScheme(SchemeOf(s))
    && var data := s[SchemeEnd(s) + 1..]; Find(data, '?') < Find(data, '#')
  }

  predicate Raises(s: string, base: Option<Url>) { (base.None? && NeedsBase(s)) || HasOpaqueQuery(s) }

  // ---------- runs that raise nothing ----------

  predicate Safe(base: Option<Url>, m: Config) {
    && m.state !in {SchemeStart, Scheme, SchemeData}
    && (base.Some? || m.state == NoScheme || PastBase(m))
  }

  lemma SafeStep(input: string, base: Option<Url>, m: Config)
    requires Safe(base, m)
    ensures var r := Step(input, None, base, m); !r.Throw? && (r.Next? ==> Safe(base, r.next))
  {
    hide StepFileHost, StepHost, StepPort, StepRelativePath, StepQuery, StepFragment, StepAuthority, StepRelative;
    StepProgress(input, None, base, m);
    HostMoves(m, At(input, m.cursor));
    TailMoves(m, At(input, m.cursor));
    if m.state == Relative {
      BaseMove(base, m, At(input, m.cursor), At(input, m.cursor + 1), At(input, m.cursor + 2));
    }
  }

  lemma HostMoves(m: Config, c: Option<char>)
    ensures m.state == FileHost ==> SafeMove(StepFileHost(m, c))
    ensures m.state in {Host, Hostname} ==> SafeMove(StepHost(None, m, c))
    ensures m.state == Port ==> SafeMove(StepPort(None, m, c))
    ensures m.state == Authority ==> SafeMove(StepAuthority(m, c))
  {
    hide WithHost, UserInfo, ParseNat, Decimal, DefaultPort, IsTabOrNewline, IsDrive;
  }

  lemma TailMoves(m: Config, c: Option<char>)
    ensures m.state == RelativePath ==> SafeMove(StepRelativePath(None, m, c))
    ensures m.state == Query ==> SafeMove(StepQuery(None, m, c))
    ensures m.state == Fragment ==> SafeMove(StepFragment(m, c))
  {
    hide PushSegment, PercentEscape, PercentEscapeQuery, IsTabOrNewline;
  }

  lemma BaseMove(base: Option<Url>, m: Config, c: Option<char>, c1: Option<char>, c2: Option<char>)
    requires m.state == Relative && base.Some?
    ensures SafeMove(StepRelative(base, m, c, c1, c2))
  {
    hide PopLast, StartsWithDrive, Inherit, IsFile;
  }

  /** The move raises nothing, and does not go to the states of the scheme. */
  predicate SafeMove(r: Move) {
    !r.Throw? && (r.Next? ==> r.next.state !in {SchemeStart, Scheme, SchemeData, NoScheme})
  }

  lemma {:induction false} SafeRun(input: string, base: Option<Url>, m: Config)
    requires Safe(base, m)
    ensures !Run(input, None, base, m).Threw?
    decreases Rank(m.state), |input| + 1 - m.cursor
  {
    if InLoop(input, m) {
      StepProgress(input, None, base, m);
      SafeStep(input, base, m);
      hide Step, Safe;
      var r := Step(input, None, base, m);
      if r.Next? { SafeRun(input, base, r.next); }
    }
  }

  // ---------- the data of a scheme without hierarchy ----------

  lemma DataStep(input: string, base: Option<Url>, m: Config)
    requires m.state == SchemeData && 0 <= m.cursor <= |input| && !m.u.invalid
    ensures var c, r := At(input, m.cursor), Step(input, None, base, m);
      && InLoop(input, m)
      && (c == Some('?') <==> r.Throw?)
      && (c == Some('#') ==> r.Next? && r.next.state == Fragment)
      && (c != Some('#') && c != Some('?') ==>
            r.Next? && r.next.state == SchemeData && r.next.cursor == m.cursor + 1 && !r.next.u.invalid)
  {
    hide PercentEscape, IsTabOrNewline;
  }

  lemma FindNext(s: string, c: char)
    requires s != ""
    ensures Find(s, c) == if s[0] == c then 0 else 1 + Find(s[1..], c)
  {}

  lemma {:induction false} DataRaises(input: string, base: Option<Url>, m: Config)
    requires m.state == SchemeData && 0 <= m.cursor <= |input| && !m.u.invalid
    ensures var data := input[m.cursor..];
      Run(input, None, base, m).Threw? <==> Find(data, '?') < Find(data, '#')
    decreases |input| - m.cursor
  {
    var data, c := input[m.cursor..], At(input, m.cursor);
    DataStep(input, base, m);
    var r := Step(input, None, base, m);
    assert c.Some? ==> data[0] == c.value && data[1..] == input[m.cursor + 1..];
    if data != "" { FindNext(data, '?'); FindNext(data, '#'); }
    if c.None? {
      EndRound(input, None, base, m);
    } else if c == Some('#') {
      SafeRun(input, base, r.next);
    } else if c != Some('?') {
      hide Run, Find;
      Round(input, None, base, m, r.next);
      DataRaises(input, base, r.next);
    }
    hide Step, Find;
  }

  // ---------- the scheme ----------

  /** The point after the scheme and its colon. */
  function AfterScheme(s: string, base: Option<Url>): Config
    requires HasScheme(s)
  {
    StepScheme(None, base, Config(Scheme, SchemeEnd(s), SchemeOf(s), false, false, BLANK), Some(':')).next
  }

  lemma SchemeRead(s: string, base: Option<Url>)
    requires HasScheme(s)
    ensures Parse(s, None, base, BLANK) == Run(s, None, base, AfterScheme(s, base))
  {
    var k := SchemeEnd(s);
    assert SchemeChar(s[0]) && k >= 1;
    var m := Config(Scheme, 1, [LowerChar(s[0])], false, false, BLANK);
    assert [LowerChar(s[0])] + Lower(Slice(s, 1, k)) == Lower(s[..k]);
    hide Run, SchemeEnd, Lower, Slice;
    Round(s, None, base, Start(None, BLANK), m);
    SchemeScan(s, None, base, m, k);
    ColonRound(s, base, Config(Scheme, k, SchemeOf(s), false, false, BLANK));
  }

  lemma ColonRound(s: string, base: Option<Url>, m: Config)
    requires m.state == Scheme && 0 <= m.cursor < |s| && s[m.cursor] == ':' && !m.u.invalid
    ensures Run(s, None, base, m) == Run(s, None, base, StepScheme(None, base, m, Some(':')).next)
  {
    Round(s, None, base, m, StepScheme(None, base, m, Some(':')).next);
    hide Run, StepScheme;
  }

  lemma NoSchemeRaises(s: string, base: Option<Url>)
    requires !HasScheme(s)
    ensures !Parse(s, None, base, BLANK).Threw?
  {
    var n := Config(NoScheme, 0, "", false, false, BLANK);
    hide Run, SchemeEnd, Lower, Slice;
    if s != "" && Alpha(s[0]) {
      var k := SchemeEnd(s);
      assert SchemeChar(s[0]) && k >= 1;
      var m := Config(Scheme, 1, [LowerChar(s[0])], false, false, BLANK);
      Round(s, None, base, Start(None, BLANK), m);
      SchemeScan(s, None, base, m, k);
      var e := m.(cursor := k, buffer := m.buffer + Lower(Slice(s, 1, k)));
      Round(s, None, base, e, n);
    } else {
      Round(s, None, base, Start(None, BLANK), n);
    }
    SafeRun(s, base, n);
  }

  /** What follows the scheme of a file URL. */
  lemma FileRaises(s: string, base: Option<Url>)
    requires HasScheme(s) && IsFile(SchemeOf(s))
    ensures Parse(s, None, base, BLANK).Threw? <==> base.None? && NeedsBase(s)
  {
    var m := AfterScheme(s, base);
    hide Run, SchemeEnd, Lower, StartsWithDrive;
    SchemeRead(s, base);
    var r := Step(s, None, base, m);
    assert m == Config(Relative, SchemeEnd(s) + 1, "", false, false, BLANK.(scheme := "file", relative := true));
    if base.Some? {
      SafeRun(s, base, m);
    } else if r.Next? {
      Round(s, None, base, m, r.next);
      SafeRun(s, base, r.next);
    } else {
      assert Run(s, None, base, m) == Threw(m.u) by { ThrowRound(s, None, base, m, m.u); }
    }
  }

  lemma ThrowRound(input: string, ov: Option<State>, base: Option<Url>, m: Config, u: Url)
    requires InLoop(input, m) && Step(input, ov, base, m) == Throw(u)
    ensures Run(input, ov, base, m) == Threw(u)
  {
    hide Step;
  }

  /** The parser raises an exception exactly for a file URL that needs a base and has none, and for a query in the data
      of a scheme without hierarchy. */
  lemma ParseRaises(s: string, base: Option<Url>)
    ensures Parse(s, None, base, BLANK).Threw? <==> Raises(s, base)
  {
    hide Parse, Run;
    if !HasScheme(s) {
      NoSchemeRaises(s, base);
    } else if IsFile(SchemeOf(s)) {
      FileRaises(s, base);
    } else {
      SchemeRead(s, base);
      var m := AfterScheme(s, base);
      if IsRelativeScheme(SchemeOf(s)) { SafeRun(s, base, m); } else { DataRaises(s, base, m); }
    }
  }

  /** The constructor raises an exception exactly then, for any text and any base. */
  lemma ConstructRaises(text: string, base: Option<Url>)
    requires Ascii(text)
    ensures Construct(text, base).Threw? <==> Raises(Trim(text), base)
  {
    hide Parse;
    ParseRaises(Trim(text), base);
  }

  /** So does the assignment of href, which has no base and trims nothing. */
  lemma HrefRaises(u: Url, t: string)
    requires Ascii(t)
    ensures Apply(u, SetHref(t)).Threw? <==> NeedsBase(t) || HasOpaqueQuery(t)
  {
    hide Parse;
    ParseRaises(t, None);
  }
}
