/** What holds of a URL object after any sequence of constructor and setter calls. */
module UrlInvariant {
  import opened Wrappers
  import opened Text
  import opened UrlMachine

  // ---------- the setters ----------

  datatype Call =
    | SetHref(text: string)
    | SetProtocol(text: string)
    | SetHost(text: string)
    | SetHostname(text: string)
    | SetPort(text: string)
    | SetPathname(text: string)
    | SetSearch(text: string)
    | SetHash(text: string)

  /** text without one leading c. */
  function Strip(text: string, c: char): string {
    if text != "" && text[0] == c then text[1..] else text
  }

  /** What a setter does to an object. */
  function Apply(u: Url, call: Call): Outcome {
    match call
    case SetHref(t) => Parse(t, None, None, BLANK)
    case SetProtocol(t) => if u.invalid then Done(u) else Parse(t + ":", Some(SchemeStart), None, u)
    case SetHost(t) => if u.invalid || !u.relative then Done(u) else Parse(t, Some(Host), None, u)
    case SetHostname(t) => if u.invalid || !u.relative then Done(u) else Parse(t, Some(Hostname), None, u)
    case SetPort(t) => if u.invalid || !u.relative then Done(u) else Parse(t, Some(Port), None, u)
    case SetPathname(t) =>
      if u.invalid || !u.relative then Done(u)
      else Parse(t, Some(RelativePathStart), None, u.(path := []))
    case SetSearch(t) =>
      if u.invalid || !u.relative then Done(u)
      else Parse(Strip(t, '?'), Some(Query), None, u.(query := "?"))
    case SetHash(t) =>
      if u.invalid then Done(u)
      else Parse(Strip(t, '#'), Some(Fragment), None, u.(fragment := "#"))
  }

  /** A run of calls on one object. An exception leaves the object as it was when raised and the
      caller may go on; a port that is not exact ends the run. */
  function Calls(u: Url, calls: seq<Call>): Url
    decreases |calls|
  {
    if calls == [] then u
    else
      match Apply(u, calls[0])
      case Done(v) => Calls(v, calls[1..])
      case Threw(v) => Calls(v, calls[1..])
      case PortOverflow(v) => v
  }

  // ---------- the invariant ----------

  predicate PathChar(c: char) { Plain(c) && c != '/' && c != '\\' }

  predicate AllPath(s: string) { forall i :: 0 <= i < |s| ==> PathChar(s[i]) }

  predicate GoodSegment(s: string) { AllPath(s) && !IsDotSegment(s) }

  predicate GoodPath(path: seq<string>) { forall i :: 0 <= i < |path| ==> GoodSegment(path[i]) }

  predicate GoodQuery(q: string) {
    q != "" ==> q[0] == '?' && forall i :: 0 <= i < |q| ==> QueryPlain(q[i])
  }

  predicate GoodFragment(f: string) {
    f != "" ==> f[0] == '#' && forall i :: 0 <= i < |f| ==> !IsTabOrNewline(f[i])
  }

  predicate HostChar(c: char) { !IsDelimiter(c) && !IsTabOrNewline(c) }

  predicate AllHost(s: string) { forall i :: 0 <= i < |s| ==> HostChar(s[i]) }

  predicate GoodHost(s: string) { AllHost(s) && Lower(s) == s }

  predicate GoodPort(s: string) {
    s != "" ==> AllDigits(s) && s == Decimal(ParseNat(s)) && ParseNat(s) < MAX_EXACT
  }

  predicate UserChar(c: char) { Plain(c) && !IsDelimiter(c) && c != '@' }

  predicate GoodUser(s: string) { forall i :: 0 <= i < |s| ==> UserChar(s[i]) && s[i] != ':' }

  predicate GoodPassword(p: Option<string>) {
    p.Some? ==> forall i :: 0 <= i < |p.value| ==> UserChar(p.value[i])
  }

  /** An invalid object is cleared; path segments are neither dot segments nor hold a character
      that the parser treats as special; query and fragment are empty or carry their mark. */
  predicate Sound(u: Url) {
    && (u.invalid ==> u == INVALID)
    && GoodUser(u.username) && GoodPassword(u.password)
    && GoodHost(u.host) && GoodPort(u.port)
    && GoodPath(u.path)
    && GoodQuery(u.query) && GoodFragment(u.fragment)
  }

  predicate SoundBase(base: Option<Url>) { base.Some? ==> Sound(base.value) }

  predicate SchemeText(s: string) {
    forall i :: 0 <= i < |s| ==> SchemeChar(s[i]) && LowerChar(s[i]) == s[i]
  }

  predicate AuthorityChar(c: char) { !IsDelimiter(c) && c != '@' }

  /** What the buffer holds in each state. */
  predicate GoodBuffer(state: State, b: string) {
    match state
    case Scheme => b != "" && Alpha(b[0]) && SchemeText(b)
    case Authority => forall i :: 0 <= i < |b| ==> AuthorityChar(b[i])
    case FileHost => AllHost(b)
    case Host => AllHost(b)
    case Hostname => AllHost(b)
    case Port => AllDigits(b)
    case RelativePath => AllPath(b)
    case _ => b == ""
  }

  /** The buffer is as the state expects, and query and fragment have their mark when they grow. */
  predicate Ready(m: Config) {
    && GoodBuffer(m.state, m.buffer)
    && (m.state == Query && !m.u.invalid ==> m.u.query != "")
    && (m.state == Fragment && !m.u.invalid ==> m.u.fragment != "")
  }

  predicate SoundConfig(m: Config) { Sound(m.u) && Ready(m) }

  function Object(r: Move): Url { if r.Next? then r.next.u else r.u }

  // ---------- pieces ----------

  lemma UndotDots(s: string)
    ensures Undot(s) == s || Undot(s) == "." || Undot(s) == ".."
    ensures !IsDotSegment(s) ==> Undot(s) == s
  {}

  lemma PushSegmentKeeps(file: bool, path: seq<string>, segment: string, more: bool)
    requires GoodPath(path) && AllPath(segment)
    ensures GoodPath(PushSegment(file, path, segment, more))
  {
    assert Lower("") == "";
    assert GoodSegment("");
    UndotDots(segment);
    if IsPipeDrive(segment) {
      var drive := [segment[0], ':'];
      assert |Lower(drive)| == 2;
      assert drive[0] != '.';
      assert GoodSegment(drive);
    }
  }

  lemma UserInfoKeeps(username: string, password: Option<string>, s: string)
    requires GoodUser(username) && GoodPassword(password)
    requires forall i :: 0 <= i < |s| ==> AuthorityChar(s[i])
    ensures var r := UserInfo(username, password, s); GoodUser(r.0) && GoodPassword(r.1)
  {
    if s != "" {
      UserInfoKeeps(username, password, s[..|s| - 1]);
    }
  }

  lemma WithHostKeeps(u: Url, host: string)
    requires Sound(u) && AllHost(host) && !u.invalid
    ensures Sound(WithHost(u, host))
  {}

  lemma DecimalGood(n: nat)
    requires n < MAX_EXACT
    ensures GoodPort(Decimal(n))
  {
    ParseDecimal(n);
  }

  // ---------- preservation: the buffer ----------

  lemma SchemeReady(ov: Option<State>, base: Option<Url>, m: Config, c: Option<char>)
    requires m.state == Scheme && Ready(m)
    ensures var r := StepScheme(ov, base, m, c); r.Next? ==> Ready(r.next)
  {
    hide IsFile, IsRelativeScheme;
  }

  lemma RelativeOnReady(base: Option<Url>, m: Config, c: Option<char>, c1: Option<char>, c2: Option<char>)
    requires m.state == Relative && m.buffer == ""
    ensures var r := RelativeOn(base, m, c, c1, c2); r.Next? ==> Ready(r.next)
  {
    hide IsFile, StartsWithDrive, PopLast, IsSlash;
  }

  lemma RelativeBuffer(m: Config)
    requires m.state == Relative && Ready(m)
    ensures m.buffer == ""
  {}

  lemma RelativeReady(base: Option<Url>, m: Config, c: Option<char>, c1: Option<char>, c2: Option<char>)
    requires m.state == Relative && Ready(m)
    ensures var r := StepRelative(base, m, c, c1, c2); r.Next? ==> Ready(r.next)
  {
    hide IsFile, RelativeOn, Ready;
    RelativeBuffer(m);
    var u := m.u.(relative := true);
    RelativeOnReady(base, m.(u := u), c, c1, c2);
    if base.Some? { RelativeOnReady(base, m.(u := u.(scheme := base.value.scheme)), c, c1, c2); }
  }

  lemma FrontReady(input: string, ov: Option<State>, base: Option<Url>, m: Config)
    requires Rank(m.state) >= 14 && m.state != Scheme && m.state != Relative && Ready(m)
    ensures var r := Step(input, ov, base, m); r.Next? ==> Ready(r.next)
  {
    hide IsRelativeScheme, StepScheme, StepRelative;
  }

  lemma AuthorityReady(input: string, ov: Option<State>, base: Option<Url>, m: Config)
    requires 9 <= Rank(m.state) < 14 && Ready(m)
    ensures var r := Step(input, ov, base, m); r.Next? ==> Ready(r.next)
  {
    hide UserInfo, IsFile;
  }

  lemma FileHostReady(m: Config, c: Option<char>)
    requires m.state == FileHost && Ready(m)
    ensures var r := StepFileHost(m, c); r.Next? ==> Ready(r.next)
  {
    hide WithHost;
  }

  lemma HostReady(ov: Option<State>, m: Config, c: Option<char>)
    requires (m.state == Host || m.state == Hostname) && Ready(m)
    ensures var r := StepHost(ov, m, c); r.Next? ==> Ready(r.next)
  {
    hide WithHost;
  }

  lemma PortReady(ov: Option<State>, m: Config, c: Option<char>)
    requires m.state == Port && Ready(m)
    ensures var r := StepPort(ov, m, c); r.Next? ==> Ready(r.next)
  {
    hide DefaultPort, ParseNat, Decimal;
  }

  lemma PathReady(ov: Option<State>, m: Config, c: Option<char>)
    requires m.state == RelativePath && Ready(m)
    ensures var r := StepRelativePath(ov, m, c); r.Next? ==> Ready(r.next)
  {
    hide PushSegment;
  }

  lemma TailReady(input: string, ov: Option<State>, base: Option<Url>, m: Config)
    requires Rank(m.state) <= 5 && m.state != RelativePath && Ready(m)
    ensures var r := Step(input, ov, base, m); r.Next? ==> Ready(r.next)
  {
    hide StepRelativePath, PercentEscape, PercentEscapeQuery;
  }

  lemma StepReady(input: string, ov: Option<State>, base: Option<Url>, m: Config)
    requires Ready(m)
    ensures var r := Step(input, ov, base, m); r.Next? ==> Ready(r.next)
  {
    var c := At(input, m.cursor);
    hide Ready;
    match m.state {
      case Scheme => SchemeReady(ov, base, m, c);
      case Relative => RelativeReady(base, m, c, At(input, m.cursor + 1), At(input, m.cursor + 2));
      case FileHost => FileHostReady(m, c);
      case Host => HostReady(ov, m, c);
      case Hostname => HostReady(ov, m, c);
      case Port => PortReady(ov, m, c);
      case RelativePath => PathReady(ov, m, c);
      case _ =>
        if Rank(m.state) >= 14 { FrontReady(input, ov, base, m); }
        else if Rank(m.state) >= 9 { AuthorityReady(input, ov, base, m); }
        else { TailReady(input, ov, base, m); }
    }
  }

  // ---------- preservation: the object ----------

  lemma SchemeKeeps(ov: Option<State>, base: Option<Url>, m: Config, c: Option<char>)
    requires m.state == Scheme && Sound(m.u) && !m.u.invalid
    ensures Sound(Object(StepScheme(ov, base, m, c)))
  {
    hide IsFile, IsRelativeScheme, GoodUser, GoodPassword, GoodHost, GoodPort, GoodPath, GoodQuery, GoodFragment;
  }

  lemma FrontKeeps(input: string, ov: Option<State>, base: Option<Url>, m: Config)
    requires Rank(m.state) >= 15 && m.state != Scheme && Sound(m.u) && !m.u.invalid
    ensures Sound(Object(Step(input, ov, base, m)))
  {
    hide StepScheme, IsRelativeScheme, Sound;
    NothingSound();
    FrontObject(m.u);
  }

  lemma NothingSound()
    ensures Sound(INVALID)
  {
    assert Lower("") == "";
  }

  lemma FrontObject(u: Url)
    requires Sound(u) && !u.invalid
    ensures forall s :: Sound(u.(scheme := s)) && Sound(u.(scheme := s, relative := true))
    ensures Sound(u.(relative := true))
  {
    hide GoodUser, GoodPassword, GoodHost, GoodPort, GoodPath, GoodQuery, GoodFragment;
  }

  lemma InheritKeeps(u: Url, base: Url)
    requires Sound(u) && Sound(base) && !u.invalid
    ensures var w := Inherit(u, base);
            Sound(w) && Sound(w.(query := base.query)) && Sound(w.(query := "?")) &&
            Sound(w.(query := base.query, fragment := "#")) && Sound(w.(path := PopLast(w.path)))
  {}

  lemma RelativeOnKeeps(base: Option<Url>, m: Config, c: Option<char>, c1: Option<char>, c2: Option<char>)
    requires Sound(m.u) && SoundBase(base) && !m.u.invalid
    ensures Sound(Object(RelativeOn(base, m, c, c1, c2)))
  {
    hide Sound, IsFile, StartsWithDrive, PopLast, IsSlash;
    if base.Some? { InheritKeeps(m.u, base.value); }
  }

  lemma SchemeMatters(u: Url, scheme: string)
    requires Sound(u) && !u.invalid
    ensures Sound(u.(relative := true)) && Sound(u.(relative := true, scheme := scheme))
  {
    hide GoodUser, GoodPassword, GoodHost, GoodPort, GoodPath, GoodQuery, GoodFragment;
  }

  lemma RelativeKeeps(base: Option<Url>, m: Config, c: Option<char>, c1: Option<char>, c2: Option<char>)
    requires m.state == Relative && Sound(m.u) && SoundBase(base) && !m.u.invalid
    ensures Sound(Object(StepRelative(base, m, c, c1, c2)))
  {
    hide Sound, IsFile, RelativeOn;
    var u := m.u.(relative := true);
    SchemeMatters(m.u, if base.Some? then base.value.scheme else "");
    RelativeOnKeeps(base, m.(u := u), c, c1, c2);
    if base.Some? { RelativeOnKeeps(base, m.(u := u.(scheme := base.value.scheme)), c, c1, c2); }
  }

  lemma SlashKeeps(input: string, ov: Option<State>, base: Option<Url>, m: Config)
    requires 10 <= Rank(m.state) < 14 && SoundConfig(m) && SoundBase(base) && !m.u.invalid
    ensures Sound(Object(Step(input, ov, base, m)))
  {
    hide Sound, IsFile, Ready;
    if base.Some? { TakenKeeps(m.u, base.value); }
  }

  lemma TakenKeeps(u: Url, base: Url)
    requires Sound(u) && Sound(base) && !u.invalid
    ensures Sound(u.(host := base.host, port := base.port))
  {
    hide GoodUser, GoodPassword, GoodHost, GoodPort, GoodPath, GoodQuery, GoodFragment;
  }

  lemma AuthorityKeeps(m: Config, c: Option<char>)
    requires m.state == Authority && SoundConfig(m) && !m.u.invalid
    ensures Sound(Object(StepAuthority(m, c)))
  {
    hide UserInfo, GoodHost, GoodPort, GoodPath, GoodQuery, GoodFragment;
    UserInfoKeeps(m.u.username, m.u.password, if m.seenAt then m.buffer + "%40" else m.buffer);
  }

  lemma HostKeeps(ov: Option<State>, m: Config, c: Option<char>)
    requires m.state in {FileHost, Host, Hostname} && Sound(m.u) && AllHost(m.buffer) && !m.u.invalid
    ensures m.state == FileHost ==> Sound(Object(StepFileHost(m, c)))
    ensures m.state != FileHost ==> Sound(Object(StepHost(ov, m, c)))
  {
    hide Sound, AllHost, WithHost, IsDrive;
    WithHostKeeps(m.u, m.buffer);
  }

  lemma PortKeeps(ov: Option<State>, m: Config, c: Option<char>)
    requires m.state == Port && SoundConfig(m) && !m.u.invalid
    ensures Sound(Object(StepPort(ov, m, c)))
  {
    if ParseNat(m.buffer) < MAX_EXACT { DecimalGood(ParseNat(m.buffer)); }
  }

  lemma PathOf(u: Url)
    requires Sound(u)
    ensures GoodPath(u.path)
  {}

  lemma PathObject(u: Url, path: seq<string>)
    requires Sound(u) && !u.invalid && GoodPath(path)
    ensures var w := u.(path := path); Sound(w) && Sound(w.(query := "?")) && Sound(w.(fragment := "#"))
  {
    hide GoodUser, GoodPassword, GoodHost, GoodPort, GoodPath;
  }

  lemma PathKeeps(ov: Option<State>, m: Config, c: Option<char>)
    requires m.state == RelativePath && Sound(m.u) && AllPath(m.buffer) && !m.u.invalid
    ensures Sound(Object(StepRelativePath(ov, m, c)))
  {
    hide Sound, GoodPath, PushSegment, AllPath, PercentEscape, IsFile, Rank;
    assert GoodPath(m.u.path) by { PathOf(m.u); }
    PushSegmentKeeps(IsFile(m.u.scheme), m.u.path, m.buffer, IsSlash(c));
    PathObject(m.u, PushSegment(IsFile(m.u.scheme), m.u.path, m.buffer, IsSlash(c)));
  }

  lemma DataKeeps(m: Config, c: Option<char>)
    requires m.state == SchemeData && SoundConfig(m) && !m.u.invalid
    ensures Sound(Object(StepSchemeData(m, c)))
  {
    hide GoodUser, GoodPassword, GoodHost, GoodPort, GoodPath, GoodQuery, PercentEscape;
  }

  lemma QueryKeeps(ov: Option<State>, m: Config, c: Option<char>)
    requires m.state == Query && SoundConfig(m) && !m.u.invalid
    ensures Sound(Object(StepQuery(ov, m, c)))
  {
    hide GoodUser, GoodPassword, GoodHost, GoodPort, GoodPath;
  }

  lemma FragmentKeeps(m: Config, c: Option<char>)
    requires m.state == Fragment && SoundConfig(m) && !m.u.invalid
    ensures Sound(Object(StepFragment(m, c)))
  {
    hide GoodUser, GoodPassword, GoodHost, GoodPort, GoodPath, GoodQuery;
  }

  lemma StepKeeps(input: string, ov: Option<State>, base: Option<Url>, m: Config)
    requires SoundConfig(m) && SoundBase(base) && !m.u.invalid
    ensures Sound(Object(Step(input, ov, base, m)))
  {
    var c := At(input, m.cursor);
    hide Sound;
    match m.state {
      case Scheme => SchemeKeeps(ov, base, m, c);
      case Relative => RelativeKeeps(base, m, c, At(input, m.cursor + 1), At(input, m.cursor + 2));
      case Authority => AuthorityKeeps(m, c);
      case FileHost => HostKeeps(ov, m, c);
      case Host => HostKeeps(ov, m, c);
      case Hostname => HostKeeps(ov, m, c);
      case Port => PortKeeps(ov, m, c);
      case RelativePathStart => assert Object(StepRelativePathStart(m, c)) == m.u;
      case RelativePath => PathKeeps(ov, m, c);
      case SchemeData => DataKeeps(m, c);
      case Query => QueryKeeps(ov, m, c);
      case Fragment => FragmentKeeps(m, c);
      case _ =>
        if Rank(m.state) >= 15 { FrontKeeps(input, ov, base, m); }
        else { SlashKeeps(input, ov, base, m); }
    }
  }

  lemma {:induction false} RunKeeps(input: string, ov: Option<State>, base: Option<Url>, m: Config)
    requires SoundConfig(m) && SoundBase(base)
    ensures Sound(Run(input, ov, base, m).u)
    decreases Rank(m.state), |input| + 1 - m.cursor
  {
    if InLoop(input, m) {
      StepProgress(input, ov, base, m);
      StepReady(input, ov, base, m);
      StepKeeps(input, ov, base, m);
      var r := Step(input, ov, base, m);
      hide Sound, Ready, Step;
      if r.Next? { RunKeeps(input, ov, base, r.next); }
    }
  }

  // ---------- every run of calls ----------

  /** A new object is sound, whether or not its construction raised an exception. */
  lemma ConstructSound(text: string, base: Option<Url>)
    requires SoundBase(base)
    ensures Sound(Construct(text, base).u)
  {
    hide Run;
    BlankSound();
    RunKeeps(Trim(text), None, base, Start(None, BLANK));
  }

  /** Where the constructor and the setters start is sound. */
  lemma StartsSound(u: Url)
    requires Sound(u) && !u.invalid
    ensures forall ov :: ov in {Some(SchemeStart), Some(Host), Some(Hostname), Some(Port)} ==> SoundConfig(Start(ov, u))
    ensures SoundConfig(Start(Some(RelativePathStart), u.(path := [])))
    ensures SoundConfig(Start(Some(Query), u.(query := "?")))
    ensures SoundConfig(Start(Some(Fragment), u.(fragment := "#")))
    ensures SoundConfig(Start(None, BLANK))
  {
    hide GoodUser, GoodPassword, GoodHost, GoodPort;
    BlankSound();
  }

  lemma BlankSound()
    ensures Sound(BLANK) && SoundConfig(Start(None, BLANK))
  {
    assert Lower("") == "";
  }

  lemma ApplySound(u: Url, call: Call)
    requires Sound(u)
    ensures Sound(Apply(u, call).u)
  {
    hide Sound, SoundConfig, Run;
    if u.invalid { BlankSound(); } else { StartsSound(u); }
    match call {
      case SetHref(t) => RunKeeps(t, None, None, Start(None, BLANK));
      case SetProtocol(t) => if !u.invalid { RunKeeps(t + ":", Some(SchemeStart), None, Start(Some(SchemeStart), u)); }
      case SetHost(t) => if !u.invalid { RunKeeps(t, Some(Host), None, Start(Some(Host), u)); }
      case SetHostname(t) => if !u.invalid { RunKeeps(t, Some(Hostname), None, Start(Some(Hostname), u)); }
      case SetPort(t) => if !u.invalid { RunKeeps(t, Some(Port), None, Start(Some(Port), u)); }
      case SetPathname(t) =>
        if !u.invalid { RunKeeps(t, Some(RelativePathStart), None, Start(Some(RelativePathStart), u.(path := []))); }
      case SetSearch(t) =>
        if !u.invalid { RunKeeps(Strip(t, '?'), Some(Query), None, Start(Some(Query), u.(query := "?"))); }
      case SetHash(t) =>
        if !u.invalid { RunKeeps(Strip(t, '#'), Some(Fragment), None, Start(Some(Fragment), u.(fragment := "#"))); }
    }
  }

  /** Whatever is called on an object, in any order and past any exception, it stays sound. */
  lemma {:induction false} CallsSound(u: Url, calls: seq<Call>)
    requires Sound(u)
    ensures Sound(Calls(u, calls))
    decreases |calls|
  {
    if calls != [] {
      ApplySound(u, calls[0]);
      var o := Apply(u, calls[0]);
      hide Sound, Apply;
      if !o.PortOverflow? { CallsSound(o.u, calls[1..]); }
    }
  }

  /** The object invariant over a whole life: construction, then any calls. */
  lemma EveryRunSound(text: string, base: Option<Url>, calls: seq<Call>)
    requires SoundBase(base)
    ensures Sound(Calls(Construct(text, base).u, calls))
  {
    ConstructSound(text, base);
    CallsSound(Construct(text, base).u, calls);
  }
}
