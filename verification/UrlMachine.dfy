/** The URL parser as a state machine: the record of a URL's fields, one function per
    parser state, and the run of the machine. `UrlObject` proves the parsing loop
    against Run; the other Url modules prove what Run computes. */
module UrlMachine {
  import opened Wrappers
  import opened Text

  /** The fields of a URL object, without the text it was made from. */
  datatype Url = Url(
    scheme: string,
    schemeData: string,
    username: string,
    password: Option<string>,
    host: string,
    port: string,
    path: seq<string>,
    query: string,
    fragment: string,
    invalid: bool,
    relative: bool)

  /** A cleared object. */
  const BLANK := Url("", "", "", None, "", "", [], "", "", false, false)

  /** An object after `invalid`: cleared, and marked. */
  const INVALID := BLANK.(invalid := true)

  function DefaultPort(scheme: string): Option<nat> {
    if scheme == "ftp" then Some(21)
    else if scheme == "file" then Some(0)
    else if scheme == "gopher" then Some(70)
    else if scheme == "http" then Some(80)
    else if scheme == "https" then Some(443)
    else if scheme == "ws" then Some(80)
    else if scheme == "wss" then Some(443)
    else None
  }

  predicate IsFile(scheme: string) { scheme == "file" }

  predicate IsRelativeScheme(scheme: string) { DefaultPort(scheme).Some? }

  // ---------- characters ----------

  predicate SchemeChar(c: char) { Alpha(c) || Digit(c) || c == '+' || c == '-' || c == '.' }

  predicate IsTabOrNewline(c: char) { c == '\t' || c == '\n' || c == '\r' }

  /** The characters that end an authority, a host or a port. */
  predicate IsDelimiter(c: char) { c == '/' || c == '\\' || c == '?' || c == '#' }

  /** Printable and not one of the characters that are escaped everywhere. */
  predicate QueryPlain(c: char) {
    0x20 < c as int < 0x7F && c != '"' && c != '#' && c != '<' && c != '>' && c != '`'
  }

  predicate Plain(c: char) { QueryPlain(c) && c != '?' }

  function HexDigit(d: nat): char requires d < 16 {
    if d < 10 then (d + '0' as int) as char else (d - 10 + 'A' as int) as char
  }

  /** encodeURIComponent on an ASCII character that it escapes. */
  function Encode(c: char): string {
    ['%', HexDigit(c as int / 16 % 16), HexDigit(c as int % 16)]
  }

  function PercentEscape(c: char): (s: string)
    ensures s != ""
    ensures forall i :: 0 <= i < |s| ==>
      Plain(s[i]) && (IsDelimiter(s[i]) || s[i] == '@' || s[i] == ':' ==> s[i] == c)
  {
    if Plain(c) then [c] else Encode(c)
  }

  function PercentEscapeQuery(c: char): (s: string)
    ensures s != "" && forall i :: 0 <= i < |s| ==> QueryPlain(s[i])
  {
    if QueryPlain(c) then [c] else Encode(c)
  }

  /** input[i], with None for `undefined`. */
  function At(input: string, i: int): Option<char> {
    if 0 <= i < |input| then Some(input[i]) else None
  }

  /** End of input or a character that ends an authority, a host or a port. */
  predicate EndsPart(c: Option<char>) { c.None? || IsDelimiter(c.value) }

  predicate IsSlash(c: Option<char>) { c == Some('/') || c == Some('\\') }

  /** A letter followed by ':' or '|'. */
  predicate IsDrive(s: string) { |s| == 2 && Alpha(s[0]) && (s[1] == ':' || s[1] == '|') }

  predicate IsPipeDrive(s: string) { |s| == 2 && Alpha(s[0]) && s[1] == '|' }

  // ---------- path segments ----------

  function Undot(s: string): string {
    var t := Lower(s);
    if t == "%2e" then "." else if t == ".%2e" || t == "%2e." || t == "%2e%2e" then ".." else s
  }

  /** A segment that is "." or ".." in one of its spellings. */
  predicate IsDotSegment(s: string) { Undot(s) == "." || Undot(s) == ".." }

  function PopLast(path: seq<string>): seq<string> {
    if path == [] then [] else path[..|path| - 1]
  }

  /** What the end of a path segment does to the path; `more` when a slash ended it. */
  function PushSegment(file: bool, path: seq<string>, segment: string, more: bool): seq<string> {
    var s := Undot(segment);
    if s == ".." then PopLast(path) + (if more then [] else [""])
    else if s == "." then path + (if more then [] else [""])
    else if file && path == [] && IsPipeDrive(s) then path + [[s[0], ':']]
    else path + [s]
  }

  // ---------- user information and host ----------

  /** One character of the user information, as the authority state handles it. */
  function UserInfoChar(username: string, password: Option<string>, c: char): (string, Option<string>) {
    if IsTabOrNewline(c) then (username, password)
    else if c == ':' && password.None? then (username, Some(""))
    else if password.Some? then (username, Some(password.value + PercentEscape(c)))
    else (username + PercentEscape(c), None)
  }

  function UserInfo(username: string, password: Option<string>, s: string): (string, Option<string>) {
    if s == "" then (username, password)
    else
      var (n, p) := UserInfo(username, password, s[..|s| - 1]);
      UserInfoChar(n, p, s[|s| - 1])
  }

  /** Storing a host: lower-cased, and an empty one invalidates the object. */
  function WithHost(u: Url, host: string): Url {
    if host == "" then INVALID else u.(host := Lower(host))
  }

  /** Numbers from here on are not exact in the original's arithmetic. */
  const MAX_EXACT: nat := 0x20_0000_0000_0000

  // ---------- the machine ----------

  datatype State =
    | SchemeStart | Scheme | SchemeData | NoScheme | RelativeOrAuthority | Relative | RelativeSlash
    | AuthorityFirstSlash | AuthoritySecondSlash | AuthorityIgnoreSlashes | Authority
    | FileHost | Host | Hostname | Port | RelativePathStart | RelativePath | Query | Fragment

  /** The loop's variables and the object being filled. */
  datatype Config = Config(
    state: State, cursor: int, buffer: string, seenAt: bool, seenBracket: bool, u: Url)

  /** What one round of the loop does: go on, leave the loop, raise an exception, or meet a
      port that the original does not compute exactly. */
  datatype Move = Next(next: Config) | Break(u: Url) | Throw(u: Url) | Overflow(u: Url)

  /** How a whole parse ends, with the state in which it leaves the object. */
  datatype Outcome = Done(u: Url) | Threw(u: Url) | PortOverflow(u: Url)

  /** No state is entered again once it is left. */
  function Rank(s: State): nat {
    match s
    case SchemeStart => 18
    case Scheme => 17
    case NoScheme => 16
    case RelativeOrAuthority => 15
    case Relative => 14
    case RelativeSlash => 13
    case AuthorityFirstSlash => 12
    case AuthoritySecondSlash => 11
    case AuthorityIgnoreSlashes => 10
    case Authority => 9
    case FileHost => 8
    case Host => 7
    case Hostname => 7
    case Port => 6
    case RelativePathStart => 5
    case RelativePath => 4
    case SchemeData => 3
    case Query => 2
    case Fragment => 1
  }

  /** The round goes to a later state, or stays and consumes one character. */
  predicate Progress(m: Config, r: Move) {
    r.Next? ==>
      || Rank(r.next.state) < Rank(m.state)
      || (r.next.state == m.state && r.next.cursor == m.cursor + 1)
  }

  function StepSchemeStart(ov: Option<State>, m: Config, c: Option<char>): Move
    requires m.state == SchemeStart
  {
    if c.Some? && Alpha(c.value) then
      Next(m.(state := Scheme, cursor := m.cursor + 1, buffer := m.buffer + [LowerChar(c.value)]))
    else if ov.None? then Next(m.(state := NoScheme, buffer := ""))
    else Break(m.u)
  }

  function StepScheme(ov: Option<State>, base: Option<Url>, m: Config, c: Option<char>): Move
    requires m.state == Scheme
  {
    if c.Some? && SchemeChar(c.value) then Next(m.(cursor := m.cursor + 1, buffer := m.buffer + [LowerChar(c.value)]))
    else if c == Some(':') then
      var named := m.u.(scheme := m.buffer);
      if ov.Some? then Break(named)
      else
        var u := if IsRelativeScheme(named.scheme) then named.(relative := true) else named;
        var s :=
          if IsFile(u.scheme) then Relative
          else if u.relative && base.Some? && base.value.scheme == u.scheme then RelativeOrAuthority
          else if u.relative then AuthorityFirstSlash
          else SchemeData;
        Next(m.(state := s, cursor := m.cursor + 1, buffer := "", u := u))
    else if ov.None? then Next(m.(state := NoScheme, cursor := 0, buffer := ""))
    else Break(m.u)
  }

  function StepSchemeData(m: Config, c: Option<char>): Move
    requires m.state == SchemeData
  {
    if c == Some('?') then Throw(m.u)
    else if c == Some('#') then Next(m.(state := Fragment, cursor := m.cursor + 1, u := m.u.(fragment := "#")))
    else if c.Some? && !IsTabOrNewline(c.value) then
      Next(m.(cursor := m.cursor + 1, u := m.u.(schemeData := m.u.schemeData + PercentEscape(c.value))))
    else Next(m.(cursor := m.cursor + 1))
  }

  function StepNoScheme(base: Option<Url>, m: Config): Move
    requires m.state == NoScheme
  {
    if base.None? || !IsRelativeScheme(base.value.scheme) then Next(m.(cursor := m.cursor + 1, u := INVALID))
    else Next(m.(state := Relative))
  }

  function StepRelativeOrAuthority(m: Config, c: Option<char>, c1: Option<char>): Move
    requires m.state == RelativeOrAuthority
  {
    if c == Some('/') && c1 == Some('/') then Next(m.(state := AuthorityIgnoreSlashes, cursor := m.cursor + 1))
    else Next(m.(state := Relative))
  }

  /** The base's host, port and path. */
  function Inherit(u: Url, base: Url): Url {
    u.(host := base.host, port := base.port, path := base.path)
  }

  /** The reference starts with a drive letter that stands alone. */
  predicate StartsWithDrive(c: Option<char>, c1: Option<char>, c2: Option<char>) {
    && c.Some? && Alpha(c.value)
    && (c1 == Some(':') || c1 == Some('|'))
    && EndsPart(c2)
  }

  /** A reference that does not start with a slash or a drive, on the base's host and path. */
  function TakeBase(base: Url, m: Config, c: Option<char>): Move {
    var w := Inherit(m.u, base);
    if c.None? then Break(w.(query := base.query))
    else if c == Some('?') then Next(m.(state := Query, cursor := m.cursor + 1, u := w.(query := "?")))
    else if c == Some('#') then
      Next(m.(state := Fragment, cursor := m.cursor + 1, u := w.(query := base.query, fragment := "#")))
    else Next(m.(state := RelativePath, u := w.(path := PopLast(w.path))))
  }

  /** The relative state, once the scheme is known. */
  function RelativeOn(
    base: Option<Url>, m: Config, c: Option<char>, c1: Option<char>, c2: Option<char>): Move
  {
    if IsSlash(c) then Next(m.(state := RelativeSlash, cursor := m.cursor + 1))
    else if c.Some? && c != Some('?') && c != Some('#') && IsFile(m.u.scheme) && StartsWithDrive(c, c1, c2) then
      Next(m.(state := RelativePath))
    else if base.None? then Throw(m.u)
    else TakeBase(base.value, m, c)
  }

  function StepRelative(
    base: Option<Url>, m: Config, c: Option<char>, c1: Option<char>, c2: Option<char>): Move
    requires m.state == Relative
  {
    var u := m.u.(relative := true);
    if IsFile(u.scheme) then RelativeOn(base, m.(u := u), c, c1, c2)
    else if base.None? then Throw(u)
    else RelativeOn(base, m.(u := u.(scheme := base.value.scheme)), c, c1, c2)
  }

  function StepRelativeSlash(base: Option<Url>, m: Config, c: Option<char>): Move
    requires m.state == RelativeSlash
  {
    if IsSlash(c) then
      Next(m.(state := if IsFile(m.u.scheme) then FileHost else AuthorityIgnoreSlashes, cursor := m.cursor + 1))
    else if IsFile(m.u.scheme) then Next(m.(state := RelativePath))
    else if base.None? then Throw(m.u)
    else Next(m.(state := RelativePath, u := m.u.(host := base.value.host, port := base.value.port)))
  }

  function StepAuthorityFirstSlash(m: Config, c: Option<char>): Move
    requires m.state == AuthorityFirstSlash
  {
    if c == Some('/') then Next(m.(state := AuthoritySecondSlash, cursor := m.cursor + 1))
    else Next(m.(state := AuthorityIgnoreSlashes))
  }

  function StepAuthoritySecondSlash(m: Config, c: Option<char>): Move
    requires m.state == AuthoritySecondSlash
  {
    if c == Some('/') then Next(m.(state := AuthorityIgnoreSlashes, cursor := m.cursor + 1))
    else Next(m.(state := AuthorityIgnoreSlashes))
  }

  function StepAuthorityIgnoreSlashes(m: Config, c: Option<char>): Move
    requires m.state == AuthorityIgnoreSlashes
  {
    if IsSlash(c) then Next(m.(cursor := m.cursor + 1)) else Next(m.(state := Authority))
  }

  function StepAuthority(m: Config, c: Option<char>): Move
    requires m.state == Authority
  {
    if c == Some('@') then
      var b := if m.seenAt then m.buffer + "%40" else m.buffer;
      var (name, pass) := UserInfo(m.u.username, m.u.password, b);
      Next(m.(cursor := m.cursor + 1, buffer := "", seenAt := true, u := m.u.(username := name, password := pass)))
    else if EndsPart(c) then Next(m.(state := Host, cursor := m.cursor - |m.buffer|, buffer := ""))
    else Next(m.(cursor := m.cursor + 1, buffer := m.buffer + [c.value]))
  }

  function StepFileHost(m: Config, c: Option<char>): Move
    requires m.state == FileHost
  {
    if EndsPart(c) then
      if IsDrive(m.buffer) then Next(m.(state := RelativePath))
      else if m.buffer == "" then Next(m.(state := RelativePathStart))
      else Next(m.(state := RelativePathStart, buffer := "", u := WithHost(m.u, m.buffer)))
    else if IsTabOrNewline(c.value) then Next(m.(cursor := m.cursor + 1))
    else Next(m.(cursor := m.cursor + 1, buffer := m.buffer + [c.value]))
  }

  function StepHost(ov: Option<State>, m: Config, c: Option<char>): Move
    requires m.state == Host || m.state == Hostname
  {
    if c == Some(':') && !m.seenBracket then
      var u := WithHost(m.u, m.buffer);
      if ov == Some(Hostname) then Break(u) else Next(m.(state := Port, cursor := m.cursor + 1, buffer := "", u := u))
    else if EndsPart(c) then
      var u := WithHost(m.u, m.buffer);
      if ov.Some? then Break(u) else Next(m.(state := RelativePathStart, buffer := "", u := u))
    else if IsTabOrNewline(c.value) then Next(m.(cursor := m.cursor + 1))
    else
      Next(m.(cursor := m.cursor + 1, buffer := m.buffer + [c.value],
              seenBracket := if c == Some('[') then true else if c == Some(']') then false else m.seenBracket))
  }

  function StepPort(ov: Option<State>, m: Config, c: Option<char>): Move
    requires m.state == Port
  {
    if c.Some? && Digit(c.value) then Next(m.(cursor := m.cursor + 1, buffer := m.buffer + [c.value]))
    else if EndsPart(c) || ov.Some? then
      if m.buffer != "" && ParseNat(m.buffer) >= MAX_EXACT then Overflow(m.u)
      else
        var u :=
          if m.buffer == "" || DefaultPort(m.u.scheme) == Some(ParseNat(m.buffer)) then m.u
          else m.u.(port := Decimal(ParseNat(m.buffer)));
        if ov.Some? then Break(u) else Next(m.(state := RelativePathStart, buffer := "", u := u))
    else if IsTabOrNewline(c.value) then Next(m.(cursor := m.cursor + 1))
    else Next(m.(cursor := m.cursor + 1, u := INVALID))
  }

  function StepRelativePathStart(m: Config, c: Option<char>): Move
    requires m.state == RelativePathStart
  {
    if IsSlash(c) then Next(m.(state := RelativePath, cursor := m.cursor + 1)) else Next(m.(state := RelativePath))
  }

  function StepRelativePath(ov: Option<State>, m: Config, c: Option<char>): Move
    requires m.state == RelativePath
  {
    if c.None? || IsSlash(c) || (ov.None? && (c == Some('?') || c == Some('#'))) then
      var u := m.u.(path := PushSegment(IsFile(m.u.scheme), m.u.path, m.buffer, IsSlash(c)));
      var n := m.(cursor := m.cursor + 1, buffer := "");
      if c == Some('?') then Next(n.(state := Query, u := u.(query := "?")))
      else if c == Some('#') then Next(n.(state := Fragment, u := u.(fragment := "#")))
      else Next(n.(u := u))
    else if IsTabOrNewline(c.value) then Next(m.(cursor := m.cursor + 1))
    else Next(m.(cursor := m.cursor + 1, buffer := m.buffer + PercentEscape(c.value)))
  }

  function StepQuery(ov: Option<State>, m: Config, c: Option<char>): Move
    requires m.state == Query
  {
    if ov.None? && c == Some('#') then Next(m.(state := Fragment, cursor := m.cursor + 1, u := m.u.(fragment := "#")))
    else if c.Some? && !IsTabOrNewline(c.value) then
      Next(m.(cursor := m.cursor + 1, u := m.u.(query := m.u.query + PercentEscapeQuery(c.value))))
    else Next(m.(cursor := m.cursor + 1))
  }

  function StepFragment(m: Config, c: Option<char>): Move
    requires m.state == Fragment
  {
    if c.Some? && !IsTabOrNewline(c.value) then
      Next(m.(cursor := m.cursor + 1, u := m.u.(fragment := m.u.fragment + [c.value])))
    else Next(m.(cursor := m.cursor + 1))
  }

  /** One round of the loop. */
  function Step(input: string, ov: Option<State>, base: Option<Url>, m: Config): Move
  {
    var c := At(input, m.cursor);
    match m.state
    case SchemeStart => StepSchemeStart(ov, m, c)
    case Scheme => StepScheme(ov, base, m, c)
    case SchemeData => StepSchemeData(m, c)
    case NoScheme => StepNoScheme(base, m)
    case RelativeOrAuthority => StepRelativeOrAuthority(m, c, At(input, m.cursor + 1))
    case Relative => StepRelative(base, m, c, At(input, m.cursor + 1), At(input, m.cursor + 2))
    case RelativeSlash => StepRelativeSlash(base, m, c)
    case AuthorityFirstSlash => StepAuthorityFirstSlash(m, c)
    case AuthoritySecondSlash => StepAuthoritySecondSlash(m, c)
    case AuthorityIgnoreSlashes => StepAuthorityIgnoreSlashes(m, c)
    case Authority => StepAuthority(m, c)
    case FileHost => StepFileHost(m, c)
    case Host => StepHost(ov, m, c)
    case Hostname => StepHost(ov, m, c)
    case Port => StepPort(ov, m, c)
    case RelativePathStart => StepRelativePathStart(m, c)
    case RelativePath => StepRelativePath(ov, m, c)
    case Query => StepQuery(ov, m, c)
    case Fragment => StepFragment(m, c)
  }

  lemma SchemeProgress(ov: Option<State>, base: Option<Url>, m: Config, c: Option<char>)
    requires m.state == Scheme
    ensures Progress(m, StepScheme(ov, base, m, c))
  {
    hide IsFile, IsRelativeScheme;
  }

  lemma RelativeOnProgress(base: Option<Url>, m: Config, c: Option<char>, c1: Option<char>, c2: Option<char>)
    requires m.state == Relative
    ensures Progress(m, RelativeOn(base, m, c, c1, c2))
  {
    hide IsFile, StartsWithDrive, PopLast, Inherit, IsSlash;
  }

  lemma RelativeProgress(base: Option<Url>, m: Config, c: Option<char>, c1: Option<char>, c2: Option<char>)
    requires m.state == Relative
    ensures Progress(m, StepRelative(base, m, c, c1, c2))
  {
    hide IsFile, RelativeOn, Rank;
    var u := m.u.(relative := true);
    RelativeOnProgress(base, m.(u := u), c, c1, c2);
    if base.Some? { RelativeOnProgress(base, m.(u := u.(scheme := base.value.scheme)), c, c1, c2); }
  }

  lemma FrontProgress(input: string, ov: Option<State>, base: Option<Url>, m: Config)
    requires Rank(m.state) >= 14
    ensures Progress(m, Step(input, ov, base, m))
  {
    hide StepScheme, StepRelative, IsRelativeScheme;
    if m.state == Scheme { SchemeProgress(ov, base, m, At(input, m.cursor)); }
    if m.state == Relative {
      RelativeProgress(base, m, At(input, m.cursor), At(input, m.cursor + 1), At(input, m.cursor + 2));
    }
  }

  lemma AuthorityProgress(input: string, ov: Option<State>, base: Option<Url>, m: Config)
    requires 8 <= Rank(m.state) < 14
    ensures Progress(m, Step(input, ov, base, m))
  {
    hide UserInfo, WithHost, IsDrive, IsFile;
  }

  lemma HostProgress(input: string, ov: Option<State>, base: Option<Url>, m: Config)
    requires 5 <= Rank(m.state) < 8
    ensures Progress(m, Step(input, ov, base, m))
  {
    hide WithHost, ParseNat, Decimal, DefaultPort;
  }

  lemma PathProgress(ov: Option<State>, m: Config, c: Option<char>)
    requires m.state == RelativePath
    ensures Progress(m, StepRelativePath(ov, m, c))
  {
    hide PushSegment, PercentEscape, IsTabOrNewline, IsFile;
  }

  lemma TailProgress(input: string, ov: Option<State>, base: Option<Url>, m: Config)
    requires Rank(m.state) < 5
    ensures Progress(m, Step(input, ov, base, m))
  {
    if m.state == RelativePath { PathProgress(ov, m, At(input, m.cursor)); }
    hide StepRelativePath, PercentEscape, PercentEscapeQuery, IsTabOrNewline;
  }

  /** Every round makes progress, those that move the cursor back included. */
  lemma StepProgress(input: string, ov: Option<State>, base: Option<Url>, m: Config)
    ensures Progress(m, Step(input, ov, base, m))
  {
    hide Step;
    if Rank(m.state) >= 14 { FrontProgress(input, ov, base, m); }
    else if Rank(m.state) >= 8 { AuthorityProgress(input, ov, base, m); }
    else if Rank(m.state) >= 5 { HostProgress(input, ov, base, m); }
    else { TailProgress(input, ov, base, m); }
  }

  /** The loop's guard: the character before the cursor exists, or the cursor is at 0. */
  predicate InLoop(input: string, m: Config) {
    (m.cursor == 0 || At(input, m.cursor - 1).Some?) && !m.u.invalid
  }

  /** The parse from a given point of the loop. */
  function Run(input: string, ov: Option<State>, base: Option<Url>, m: Config): Outcome
    decreases Rank(m.state), |input| + 1 - m.cursor
  {
    if !InLoop(input, m) then Done(m.u)
    else
      StepProgress(input, ov, base, m);
      match Step(input, ov, base, m)
      case Next(n) => Run(input, ov, base, n)
      case Break(u) => Done(u)
      case Throw(u) => Threw(u)
      case Overflow(u) => PortOverflow(u)
  }

  function Start(ov: Option<State>, u: Url): Config {
    Config(if ov.Some? then ov.value else SchemeStart, 0, "", false, false, u)
  }

  /** The function `parse` on an object u. */
  function Parse(input: string, ov: Option<State>, base: Option<Url>, u: Url): Outcome {
    Run(input, ov, base, Start(ov, u))
  }

  // ---------- construction and printing ----------

  predicate IsTrimmed(c: char) { c == ' ' || c == '\t' || c == '\r' || c == '\n' || c == '\U{C}' }

  function TrimLeft(s: string): string {
    if s != "" && IsTrimmed(s[0]) then TrimLeft(s[1..]) else s
  }

  function TrimRight(s: string): string {
    if s != "" && IsTrimmed(s[|s| - 1]) then TrimRight(s[..|s| - 1]) else s
  }

  function Trim(s: string): string { TrimRight(TrimLeft(s)) }

  /** The constructor: a new object parsed from the trimmed text. */
  function Construct(text: string, base: Option<Url>): Outcome {
    Parse(Trim(text), None, base, BLANK)
  }

  /** The user information in front of a host, with its '@'. */
  function Credentials(u: Url): string {
    if u.username != "" || u.password.Some? then
      u.username + (if u.password.Some? then ":" + u.password.value else "") + "@"
    else ""
  }

  function HostText(u: Url): string {
    if u.invalid then "" else if u.port != "" then u.host + ":" + u.port else u.host
  }

  function PathText(u: Url): string {
    if u.invalid then "" else if u.relative then "/" + Join(u.path, '/') else u.schemeData
  }

  /** The getter `href`; `text` is what the object was made from. */
  function Href(u: Url, text: string): string {
    if u.invalid then text
    else
      u.scheme + ":" + (if u.relative then "//" + Credentials(u) + HostText(u) else "") +
      PathText(u) + u.query + u.fragment
  }
}
