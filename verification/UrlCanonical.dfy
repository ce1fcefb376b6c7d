/** The canonical URLs: what the constructor makes of any text that it accepts. */
module UrlCanonical {
  import opened Wrappers
  import opened Text
  import opened UrlMachine
  import opened UrlInvariant
  import opened UrlScan
  import opened UrlCursor

  predicate GoodScheme(s: string) { s != "" && Alpha(s[0]) && SchemeText(s) }

  predicate AllPlain(s: string) { forall i :: 0 <= i < |s| ==> Plain(s[i]) }

  /** No final character that the constructor would trim. */
  predicate KeptAtEnd(s: string) { s != "" ==> !IsTrimmed(s[|s| - 1]) }

  /** Scheme, user information, host and port can be read back from their printed form. */
  predicate HostPart(u: Url) {
    && u.relative && !u.invalid && u.schemeData == ""
    && GoodScheme(u.scheme) && IsRelativeScheme(u.scheme)
    && (IsFile(u.scheme) ==> u.username == "" && u.password.None? && u.port == "" && !IsDrive(u.host))
    && (!IsFile(u.scheme) ==>
          && u.host != "" && ColonsBracketed(u.host) && '@' !in u.host
          && (u.port != "" ==> !OpenBracket(u.host) && DefaultPort(u.scheme) != Some(ParseNat(u.port))))
  }

  /** The first segment of a file path is not a drive spelled with '|'. */
  predicate PathPart(u: Url) { IsFile(u.scheme) && u.path != [] ==> !IsPipeDrive(u.path[0]) }

  predicate Hierarchical(u: Url) { HostPart(u) && PathPart(u) && u.path != [] }

  /** A URL of a scheme without hierarchy: only scheme, data and fragment. */
  predicate Opaque(u: Url) {
    && u == BLANK.(scheme := u.scheme, schemeData := u.schemeData, fragment := u.fragment)
    && GoodScheme(u.scheme) && !IsRelativeScheme(u.scheme) && AllPlain(u.schemeData)
  }

  /** Every part can be read back from the printed text, if nothing is trimmed off its end. */
  predicate Printable(u: Url) {
    !u.invalid && Sound(u) && if u.relative then Hierarchical(u) else Opaque(u)
  }

  predicate Canonical(u: Url) { Printable(u) && KeptAtEnd(u.fragment) }

  predicate CanonicalBase(base: Option<Url>) { base.Some? ==> Canonical(base.value) }

  // ---------- the object in each state ----------

  function Head(scheme: string): Url { BLANK.(scheme := scheme, relative := true) }

  /** A hierarchical scheme other than file, and nothing else. */
  predicate WebHead(u: Url) {
    u == Head(u.scheme) && GoodScheme(u.scheme) && IsRelativeScheme(u.scheme) && !IsFile(u.scheme)
  }

  predicate SameScheme(u: Url, base: Option<Url>) { base.Some? && base.value.scheme == u.scheme }

  predicate FileOrSame(u: Url, base: Option<Url>) {
    && u == Head(u.scheme) && GoodScheme(u.scheme) && IsRelativeScheme(u.scheme)
    && (!IsFile(u.scheme) ==> SameScheme(u, base))
  }

  /** User information may have been read. */
  predicate UserHead(u: Url) {
    WebHead(u.(username := "", password := None))
  }

  /** No '@' from i to the end of the host. */
  predicate AtFree(input: string, i: int)
    decreases |input| - i
  {
    0 <= i < |input| && !IsDelimiter(input[i]) ==> input[i] != '@' && AtFree(input, i + 1)
  }

  predicate Bare(u: Url) { u.path == [] && u.query == "" && u.fragment == "" }

  predicate Shape(input: string, base: Option<Url>, m: Config) {
    m.u.invalid ||
    match m.state
    case SchemeStart => m.u == BLANK && !m.seenBracket
    case Scheme => m.u == BLANK && !m.seenBracket
    case NoScheme => m.u == BLANK && !m.seenBracket
    case SchemeData => Opaque(m.u) && m.u.fragment == ""
    case RelativeOrAuthority => WebHead(m.u) && SameScheme(m.u, base) && !m.seenBracket
    case AuthorityFirstSlash => WebHead(m.u) && !m.seenBracket
    case AuthoritySecondSlash => WebHead(m.u) && !m.seenBracket
    case AuthorityIgnoreSlashes => WebHead(m.u) && !m.seenBracket
    case Relative =>
      && !m.seenBracket
      && (FileOrSame(m.u, base) || (m.u == BLANK && base.Some? && IsRelativeScheme(base.value.scheme)))
    case RelativeSlash => FileOrSame(m.u, base) && !m.seenBracket
    case Authority =>
      && UserHead(m.u) && !m.seenBracket
      && Slice(input, m.cursor - |m.buffer|, m.cursor) == m.buffer
    case FileHost =>
      m.u == Head(m.u.scheme) && IsFile(m.u.scheme) && GoodScheme(m.u.scheme) && IsRelativeScheme(m.u.scheme)
    case Host =>
      && UserHead(m.u) && m.seenBracket == OpenBracket(m.buffer)
      && ColonsBracketed(m.buffer) && '@' !in m.buffer && AtFree(input, m.cursor)
    case Hostname => false
    case Port => HostPart(m.u) && Bare(m.u) && !IsFile(m.u.scheme) && m.u.port == "" && !OpenBracket(m.u.host)
    case RelativePathStart => HostPart(m.u) && Bare(m.u)
    case RelativePath =>
      && HostPart(m.u) && PathPart(m.u) && m.u.query == "" && m.u.fragment == ""
      && (m.cursor == |input| + 1 ==> m.u.path != [])
    case Query => Hierarchical(m.u) && m.u.fragment == ""
    case Fragment =>
      && (if m.u.relative then Hierarchical(m.u) else Opaque(m.u))
      && (m.cursor >= |input| && KeptAtEnd(input) ==>
            input != "" && m.u.fragment != "" && m.u.fragment[|m.u.fragment| - 1] == input[|input| - 1])
  }

  // ---------- pieces ----------

  lemma {:induction false} LowerHost(b: string)
    ensures OpenBracket(Lower(b)) == OpenBracket(b)
    decreases |b|
  {
    if b != "" {
      LowerHost(b[..|b| - 1]);
      assert Lower(b)[..|b| - 1] == Lower(b[..|b| - 1]);
    }
  }

  lemma LowerColons(b: string)
    requires ColonsBracketed(b)
    ensures ColonsBracketed(Lower(b))
  {
    forall i | 0 <= i < |b| && Lower(b)[i] == ':' ensures OpenBracket(Lower(b)[..i]) {
      assert Lower(b)[..i] == Lower(b[..i]);
      LowerHost(b[..i]);
    }
  }

  lemma LowerMarks(b: string)
    requires '@' !in b
    ensures '@' !in Lower(b)
    ensures IsDrive(Lower(b)) == IsDrive(b)
  {
    forall i | 0 <= i < |b| ensures Lower(b)[i] != '@' { assert b[i] in b; }
  }

  lemma NoDrive()
    ensures !IsDrive("") && !IsPipeDrive("")
  {}

  lemma LowerDrive(b: string)
    ensures IsDrive(Lower(b)) == IsDrive(b)
  {}

  lemma {:induction false} AtFreeFrom(input: string, i: int, e: int)
    requires 0 <= i <= e <= |input| && EndsPart(At(input, e))
    requires forall k :: i <= k < e ==> AuthorityChar(input[k])
    ensures AtFree(input, i)
    decreases e - i
  {
    if i < e { AtFreeFrom(input, i + 1, e); }
  }

  lemma PushPart(file: bool, path: seq<string>, segment: string, more: bool)
    requires file && path != [] ==> !IsPipeDrive(path[0])
    ensures var q := PushSegment(file, path, segment, more);
            (file && q != [] ==> !IsPipeDrive(q[0])) && (!more ==> q != [])
  {
    UndotDots(segment);
    hide Undot;
  }

  // ---------- borrowing from a base of another scheme ----------

  /** s names the file scheme, in upper or lower case. */
  predicate HasFileScheme(s: string) { |s| >= 5 && Lower(s[..4]) == "file" && s[4] == ':' }

  /** s is a file URL that takes host, port and path from a base of another scheme: after the scheme it goes
      on neither with a slash nor with a drive letter that stands alone. */
  predicate Borrows(s: string, base: Option<Url>) {
    && base.Some? && !IsFile(base.value.scheme) && HasFileScheme(s)
    && !IsSlash(At(s, 5)) && !StartsWithDrive(At(s, 5), At(s, 6), At(s, 7))
  }

  /** Where the states in front stand in the input. */
  predicate Origin(input: string, m: Config) {
    match m.state
    case SchemeStart => m.cursor == 0 && m.buffer == ""
    case Scheme => 0 <= m.cursor <= |input| && m.buffer == Lower(input[..m.cursor])
    case Relative => IsFile(m.u.scheme) ==> m.cursor == 5 && HasFileScheme(input)
    case _ => true
  }

  lemma OriginStep(input: string, base: Option<Url>, m: Config)
    requires Origin(input, m) && Shape(input, base, m) && !m.u.invalid
    ensures var r := Step(input, None, base, m); r.Next? ==> Origin(input, r.next)
  {
    if Rank(m.state) < 15 {
      StepProgress(input, None, base, m);
      if m.state == Relative {
        RelativeLeft(base, m, At(input, m.cursor), At(input, m.cursor + 1), At(input, m.cursor + 2));
      }
      hide Step, Shape, HasFileScheme;
    } else if m.state == Scheme {
      SchemeOrigin(input, base, m);
    } else {
      hide HasFileScheme, StepScheme, StepRelative, DefaultPort, SchemeText;
    }
  }

  lemma RelativeLeft(base: Option<Url>, m: Config, c: Option<char>, c1: Option<char>, c2: Option<char>)
    requires m.state == Relative
    ensures var r := StepRelative(base, m, c, c1, c2); r.Next? ==> r.next.state != Relative
  {
    hide IsFile, StartsWithDrive, PopLast, Inherit;
  }

  lemma SchemeOrigin(input: string, base: Option<Url>, m: Config)
    requires m.state == Scheme && Origin(input, m)
    ensures var r := StepScheme(None, base, m, At(input, m.cursor)); r.Next? ==> Origin(input, r.next)
  {
    var k := m.cursor;
    if k < |input| {
      assert input[..k + 1] == input[..k] + [input[k]];
      assert Lower(input[..k + 1]) == Lower(input[..k]) + [LowerChar(input[k])];
    }
    hide DefaultPort;
  }

  // ---------- preservation ----------

  lemma SchemeShape(input: string, base: Option<Url>, m: Config, c: Option<char>)
    requires m.state == Scheme && Shape(input, base, m) && Ready(m) && !m.u.invalid
    ensures var r := StepScheme(None, base, m, c); r.Next? && Shape(input, base, r.next)
  {
    assert IsFile(m.buffer) ==> IsRelativeScheme(m.buffer);
    hide DefaultPort, SchemeText;
  }

  lemma FrontShape(input: string, base: Option<Url>, m: Config)
    requires m.state in {SchemeStart, NoScheme, RelativeOrAuthority}
    requires Shape(input, base, m) && Ready(m) && !m.u.invalid
    ensures var r := Step(input, None, base, m); r.Next? && Shape(input, base, r.next)
  {
    hide StepScheme, StepRelative, DefaultPort, SchemeText;
  }

  /** What the relative state takes from a canonical base. */
  lemma InheritShape(u: Url, base: Url)
    requires u == Head(base.scheme) && Canonical(base) && IsRelativeScheme(base.scheme)
    ensures var w := Inherit(u, base);
            Hierarchical(w) && w.query == "" && w.fragment == "" && PathPart(w.(path := PopLast(w.path)))
  {
    var w := Inherit(u, base);
    assert Sound(base);
    hide Sound, DefaultPort, ColonsBracketed, OpenBracket, SchemeText, IsDrive, IsPipeDrive, ParseNat;
  }

  predicate Settled(input: string, base: Option<Url>, r: Move) {
    (r.Next? ==> Shape(input, base, r.next)) && (r.Break? ==> Hierarchical(r.u) && r.u.fragment == "")
  }

  lemma BaseScheme(base: Url)
    requires Canonical(base) && IsRelativeScheme(base.scheme)
    ensures GoodScheme(base.scheme)
  {
    hide Sound, DefaultPort, SchemeText;
  }

  /** The reference is read as a file URL: it says so, or its base is one. */
  predicate ReadsFile(u: Url, base: Option<Url>) {
    IsFile(u.scheme) || (base.Some? && IsFile(base.value.scheme))
  }

  /** The cases of the relative state that keep the object's head. */
  lemma RelativeStay(input: string, base: Option<Url>, m: Config, c: Option<char>, c1: Option<char>, c2: Option<char>)
    requires m.state == Relative && Shape(input, base, m) && !m.u.invalid
    requires base.Some? && IsRelativeScheme(base.value.scheme) ==> GoodScheme(base.value.scheme)
    requires 0 <= m.cursor < |input|
    requires
      IsSlash(c) || (ReadsFile(m.u, base) && c.Some? && c != Some('?') && c != Some('#') && StartsWithDrive(c, c1, c2))
    ensures Settled(input, base, StepRelative(base, m, c, c1, c2))
  {
    assert !IsDrive("");
    hide IsRelativeScheme, GoodScheme, StartsWithDrive, ColonsBracketed, OpenBracket, IsDrive, AtFree, IsPipeDrive,
      Opaque;
  }

  /** Taking over the base's host, port and path, and perhaps its query. */
  lemma TakeBaseShape(input: string, base: Url, m: Config, c: Option<char>, w: Url)
    requires m.state == Relative && w == Inherit(m.u, base) && Hierarchical(w) && w.query == "" && w.fragment == ""
    requires PathPart(w.(path := PopLast(w.path)))
    requires 0 <= m.cursor <= |input| && c == At(input, m.cursor) && !IsSlash(c)
    ensures Settled(input, Some(base), TakeBase(base, m, c))
  {
    hide IsRelativeScheme, GoodScheme, ColonsBracketed, OpenBracket, IsDrive, DefaultPort, ParseNat, PopLast,
      IsPipeDrive, AtFree, SchemeText, FileOrSame, WebHead, UserHead, SameScheme, Opaque;
  }

  /** A base of the same scheme: the round is the one that takes over its parts. */
  lemma RelativeTakes(base: Url, m: Config, c: Option<char>, c1: Option<char>, c2: Option<char>)
    requires m.state == Relative && !IsSlash(c)
    requires m.u == BLANK || m.u == Head(base.scheme)
    requires !(IsFile(base.scheme) && c.Some? && c != Some('?') && c != Some('#') && StartsWithDrive(c, c1, c2))
    ensures StepRelative(Some(base), m, c, c1, c2) == TakeBase(base, m.(u := Head(base.scheme)), c)
  {
    hide StartsWithDrive, TakeBase;
  }

  lemma RelativeShape(input: string, base: Option<Url>, m: Config, c: Option<char>, c1: Option<char>, c2: Option<char>)
    requires m.state == Relative && Shape(input, base, m) && CanonicalBase(base) && !m.u.invalid
    requires 0 <= m.cursor <= |input| && c == At(input, m.cursor)
    requires IsFile(m.u.scheme) && base.Some? && !IsFile(base.value.scheme) ==>
               IsSlash(c) || StartsWithDrive(c, c1, c2)
    ensures Settled(input, base, StepRelative(base, m, c, c1, c2))
  {
    hide Settled, HostPart, PathPart, Hierarchical, WebHead, UserHead, GoodScheme, IsRelativeScheme, AtFree,
      StepRelative, Canonical, Opaque;
    if
      || IsSlash(c)
      || (ReadsFile(m.u, base) && c.Some? && c != Some('?') && c != Some('#') && StartsWithDrive(c, c1, c2))
    {
      if base.Some? && IsRelativeScheme(base.value.scheme) { BaseScheme(base.value); }
      RelativeStay(input, base, m, c, c1, c2);
    } else if base.None? {
      NothingTaken(input, m, c, c1, c2);
    } else {
      var b := base.value;
      var n := m.(u := Head(b.scheme));
      InheritShape(n.u, b);
      RelativeTakes(b, m, c, c1, c2);
      TakeBaseShape(input, b, n, c, Inherit(n.u, b));
    }
  }

  lemma NothingTaken(input: string, m: Config, c: Option<char>, c1: Option<char>, c2: Option<char>)
    requires m.state == Relative && !IsSlash(c)
    requires !(IsFile(m.u.scheme) && c.Some? && c != Some('?') && c != Some('#') && StartsWithDrive(c, c1, c2))
    ensures Settled(input, None, StepRelative(None, m, c, c1, c2))
  {
    hide Shape, StartsWithDrive, Hierarchical;
  }

  lemma SlashShape(input: string, base: Option<Url>, m: Config, c: Option<char>)
    requires m.state == RelativeSlash && Shape(input, base, m) && !m.u.invalid
    requires base.Some? && m.u == Head(base.value.scheme) ==> Hierarchical(Inherit(m.u, base.value))
    requires 0 <= m.cursor <= |input| && c == At(input, m.cursor)
    ensures Settled(input, base, StepRelativeSlash(base, m, c))
  {
    assert !IsDrive("");
    hide IsRelativeScheme, GoodScheme, ColonsBracketed, OpenBracket, IsDrive, IsPipeDrive, Opaque, AtFree;
  }

  lemma SlashesShape(input: string, base: Option<Url>, m: Config)
    requires 10 <= Rank(m.state) <= 12 && Shape(input, base, m) && Ready(m) && !m.u.invalid
    requires 0 <= m.cursor <= |input|
    ensures Settled(input, base, Step(input, None, base, m))
  {
    hide IsRelativeScheme, GoodScheme, Opaque, AtFree, FileOrSame, HostPart, Hierarchical;
  }

  lemma AuthorityShape(input: string, base: Option<Url>, m: Config, c: Option<char>)
    requires m.state == Authority && Shape(input, base, m) && Ready(m) && !m.u.invalid
    requires |m.buffer| <= m.cursor <= |input| && c == At(input, m.cursor)
    ensures Settled(input, base, StepAuthority(m, c))
  {
    hide IsRelativeScheme, GoodScheme, UserInfo, AtFree, Opaque, Ready, Slice, IsDelimiter;
    if EndsPart(c) {
      BufferFree(input, m);
      assert '@' !in "" && ColonsBracketed("") && !OpenBracket("");
    }
    if c.Some? { SlicePush(input, m); }
  }

  lemma SlicePush(input: string, m: Config)
    requires 0 <= m.cursor - |m.buffer| <= m.cursor < |input|
    requires Slice(input, m.cursor - |m.buffer|, m.cursor) == m.buffer
    ensures Slice(input, m.cursor - |m.buffer|, m.cursor + 1) == m.buffer + [input[m.cursor]]
    ensures Slice(input, m.cursor + 1, m.cursor + 1) == ""
  {}

  /** No '@' is left between the start of the buffer and the end of the authority. */
  lemma BufferFree(input: string, m: Config)
    requires m.state == Authority && Ready(m) && |m.buffer| <= m.cursor <= |input| && EndsPart(At(input, m.cursor))
    requires Slice(input, m.cursor - |m.buffer|, m.cursor) == m.buffer
    ensures AtFree(input, m.cursor - |m.buffer|)
  {
    var i := m.cursor - |m.buffer|;
    forall k | i <= k < m.cursor ensures AuthorityChar(input[k]) { assert m.buffer[k - i] == input[k]; }
    AtFreeFrom(input, i, m.cursor);
  }

  lemma FileHostShape(input: string, base: Option<Url>, m: Config, c: Option<char>)
    requires m.state == FileHost && Shape(input, base, m) && !m.u.invalid
    requires 0 <= m.cursor <= |input| && c == At(input, m.cursor)
    ensures Settled(input, base, StepFileHost(m, c))
  {
    hide IsRelativeScheme, GoodScheme, IsDrive, Opaque, AtFree, ColonsBracketed, OpenBracket, UserHead, WebHead,
      IsTabOrNewline, Hierarchical;
    LowerDrive(m.buffer);
    NoDrive();
  }

  lemma HostDone(u: Url, b: string)
    requires UserHead(u) && ColonsBracketed(b) && '@' !in b && b != ""
    ensures HostPart(WithHost(u, b)) && Bare(WithHost(u, b)) && WithHost(u, b).port == ""
    ensures !IsFile(WithHost(u, b).scheme)
    ensures OpenBracket(WithHost(u, b).host) == OpenBracket(b)
  {
    LowerColons(b);
    LowerMarks(b);
    LowerHost(b);
    hide IsRelativeScheme, GoodScheme, ColonsBracketed, OpenBracket, IsDrive;
  }

  lemma HostPush(m: Config, c: char)
    requires m.state == Host && m.seenBracket == OpenBracket(m.buffer)
    requires ColonsBracketed(m.buffer) && '@' !in m.buffer && c != '@' && (c == ':' ==> m.seenBracket)
    ensures var b := m.buffer + [c];
            && ColonsBracketed(b) && '@' !in b
            && OpenBracket(b) == if c == '[' then true else if c == ']' then false else m.seenBracket
  {
    var b := m.buffer + [c];
    assert b[..|b| - 1] == m.buffer;
    forall i | 0 <= i < |b| && b[i] == ':' ensures OpenBracket(b[..i]) {
      assert i < |m.buffer| ==> b[..i] == m.buffer[..i];
    }
  }

  lemma HostShape(input: string, base: Option<Url>, m: Config, c: Option<char>)
    requires m.state == Host && Shape(input, base, m) && !m.u.invalid
    requires 0 <= m.cursor <= |input| && c == At(input, m.cursor)
    ensures Settled(input, base, StepHost(None, m, c))
  {
    hide IsRelativeScheme, GoodScheme, ColonsBracketed, OpenBracket, IsDrive, HostPart, AtFree, Opaque, UserHead,
      WebHead,
      IsTabOrNewline, Hierarchical;
    if m.buffer != "" { HostDone(m.u, m.buffer); }
    AtFreeNext(input, m.cursor);
    if c.Some? && !IsDelimiter(c.value) {
      if c == Some(':') ==> m.seenBracket { HostPush(m, c.value); }
    }
    assert m.buffer == "" ==> WithHost(m.u, m.buffer) == INVALID;
  }

  lemma AtFreeNext(input: string, i: int)
    requires 0 <= i && AtFree(input, i)
    ensures i < |input| && !IsDelimiter(input[i]) ==> input[i] != '@' && AtFree(input, i + 1)
  {}

  lemma PortShape(input: string, base: Option<Url>, m: Config, c: Option<char>)
    requires m.state == Port && Shape(input, base, m) && !m.u.invalid
    requires 0 <= m.cursor <= |input| && c == At(input, m.cursor)
    ensures Settled(input, base, StepPort(None, m, c))
  {
    ParseDecimal(ParseNat(m.buffer));
    hide IsRelativeScheme, GoodScheme, ColonsBracketed, OpenBracket, IsDrive, DefaultPort, ParseNat, Decimal,
      AllDigits, AtFree, Opaque;
  }

  lemma PathStartShape(input: string, base: Option<Url>, m: Config, c: Option<char>)
    requires m.state == RelativePathStart && Shape(input, base, m) && !m.u.invalid
    requires 0 <= m.cursor <= |input| && c == At(input, m.cursor)
    ensures Settled(input, base, StepRelativePathStart(m, c))
  {
    hide HostPart, IsPipeDrive, AtFree, Opaque;
  }

  lemma PathShape(input: string, base: Option<Url>, m: Config, c: Option<char>)
    requires m.state == RelativePath && Shape(input, base, m) && !m.u.invalid
    requires 0 <= m.cursor <= |input| && c == At(input, m.cursor)
    ensures Settled(input, base, StepRelativePath(None, m, c))
  {
    hide PushSegment, IsRelativeScheme, GoodScheme, ColonsBracketed, OpenBracket, IsDrive, IsPipeDrive, DefaultPort,
      ParseNat, AtFree, Opaque, IsFile, PercentEscape, IsTabOrNewline, WebHead, UserHead, FileOrSame;
    PushPart(IsFile(m.u.scheme), m.u.path, m.buffer, IsSlash(c));
  }

  lemma DataShape(input: string, base: Option<Url>, m: Config, c: Option<char>)
    requires m.state == SchemeData && Shape(input, base, m) && !m.u.invalid
    requires 0 <= m.cursor <= |input| && c == At(input, m.cursor)
    ensures Settled(input, base, StepSchemeData(m, c))
  {
    hide IsRelativeScheme, GoodScheme, AtFree, HostPart, Hierarchical;
  }

  lemma QueryShape(input: string, base: Option<Url>, m: Config, c: Option<char>)
    requires m.state == Query && Shape(input, base, m) && !m.u.invalid
    requires 0 <= m.cursor <= |input| && c == At(input, m.cursor)
    ensures Settled(input, base, StepQuery(None, m, c))
  {
    hide IsRelativeScheme, GoodScheme, ColonsBracketed, OpenBracket, IsDrive, IsPipeDrive, DefaultPort, ParseNat,
      AtFree, Opaque;
  }

  lemma FragmentShape(input: string, base: Option<Url>, m: Config, c: Option<char>)
    requires m.state == Fragment && Shape(input, base, m) && !m.u.invalid
    requires 0 <= m.cursor <= |input| && c == At(input, m.cursor)
    ensures Settled(input, base, StepFragment(m, c))
  {
    hide IsRelativeScheme, GoodScheme, ColonsBracketed, OpenBracket, IsDrive, IsPipeDrive, DefaultPort, ParseNat,
      AtFree, AllPlain;
  }

  /** Where the rounds that take something from the base find it. */
  lemma BaseShape(base: Option<Url>, u: Url)
    requires CanonicalBase(base) && base.Some? && u == Head(base.value.scheme) && IsRelativeScheme(u.scheme)
    ensures Hierarchical(Inherit(u, base.value))
  {
    InheritShape(u, base.value);
  }

  /** What the cases of a step ask for. */
  predicate Shaped(input: string, base: Option<Url>, m: Config) {
    && Shape(input, base, m) && Ready(m) && Placed(input, None, m) && CanonicalBase(base)
    && !m.u.invalid && InLoop(input, m) && Origin(input, m) && !Borrows(input, base)
  }

  lemma StepShape(input: string, base: Option<Url>, m: Config)
    requires Shaped(input, base, m)
    ensures Settled(input, base, Step(input, None, base, m))
  {
    hide Shaped, Step, Settled;
    if m.state in {Authority, FileHost, Host, Hostname} {
      StepShapeAuthority(input, base, m);
    } else if m.state == Relative {
      StepShapeRelative(input, base, m);
    } else if m.state == RelativeSlash {
      StepShapeSlash(input, base, m);
    } else if Rank(m.state) > Rank(Host) {
      StepShapeFront(input, base, m);
    } else {
      StepShapeLast(input, base, m);
    }
  }

  lemma NotBorrowed(input: string, base: Option<Url>, m: Config)
    requires Origin(input, m) && !Borrows(input, base) && m.state == Relative
    ensures IsFile(m.u.scheme) && base.Some? && !IsFile(base.value.scheme) ==>
      IsSlash(At(input, m.cursor)) ||
      StartsWithDrive(At(input, m.cursor), At(input, m.cursor + 1), At(input, m.cursor + 2))
  {
    hide StartsWithDrive;
  }

  lemma StepShapeRelative(input: string, base: Option<Url>, m: Config)
    requires Shaped(input, base, m) && m.state == Relative
    ensures Settled(input, base, Step(input, None, base, m))
  {
    hide Ready, Canonical, HostPart, PathPart, WebHead, UserHead, Opaque, Borrows, Origin, HasFileScheme, Settled,
      StepRelative;
    NotBorrowed(input, base, m);
    RelativeShape(input, base, m, At(input, m.cursor), At(input, m.cursor + 1), At(input, m.cursor + 2));
  }

  lemma StepShapeSlash(input: string, base: Option<Url>, m: Config)
    requires Shaped(input, base, m) && m.state == RelativeSlash
    ensures Settled(input, base, Step(input, None, base, m))
  {
    hide Ready, Canonical, HostPart, PathPart, WebHead, UserHead, Opaque, Borrows, Origin, HasFileScheme, Settled,
      StepRelativeSlash;
    if base.Some? && m.u == Head(base.value.scheme) { BaseShape(base, m.u); }
    SlashShape(input, base, m, At(input, m.cursor));
  }

  lemma StepShapeFront(input: string, base: Option<Url>, m: Config)
    requires Shaped(input, base, m) && Rank(m.state) >= Rank(AuthorityIgnoreSlashes)
    requires m.state != Relative && m.state != RelativeSlash
    ensures Settled(input, base, Step(input, None, base, m))
  {
    hide Ready, Canonical, HostPart, PathPart, WebHead, UserHead, Opaque, Borrows, Origin, HasFileScheme, StepScheme;
    if m.state == Scheme { SchemeShape(input, base, m, At(input, m.cursor)); }
    else if Rank(m.state) >= 14 { FrontShape(input, base, m); }
    else { SlashesShape(input, base, m); }
  }

  lemma StepShapeAuthority(input: string, base: Option<Url>, m: Config)
    requires Shaped(input, base, m) && m.state in {Authority, FileHost, Host, Hostname}
    ensures Settled(input, base, Step(input, None, base, m))
  {
    var c := At(input, m.cursor);
    hide Ready, Canonical, KeptAtEnd, HostPart, PathPart, WebHead, UserHead, Opaque, Borrows, Origin;
    match m.state {
      case Authority => AuthorityShape(input, base, m, c);
      case FileHost => FileHostShape(input, base, m, c);
      case Host => HostShape(input, base, m, c);
      case Hostname => assert false;
    }
  }

  /** The cases after the host. */
  lemma StepShapeLast(input: string, base: Option<Url>, m: Config)
    requires Shaped(input, base, m) && Rank(m.state) < Rank(Host)
    ensures Settled(input, base, Step(input, None, base, m))
  {
    var c := At(input, m.cursor);
    hide Ready, Canonical, KeptAtEnd, HostPart, PathPart, WebHead, UserHead, Opaque;
    match m.state {
      case Port => PortShape(input, base, m, c);
      case RelativePathStart => PathStartShape(input, base, m, c);
      case RelativePath => PathShape(input, base, m, c);
      case SchemeData => DataShape(input, base, m, c);
      case Query => QueryShape(input, base, m, c);
      case Fragment => FragmentShape(input, base, m, c);
    }
  }

  /** Where the loop ends by reaching the end of input. */
  lemma LoopEnd(input: string, base: Option<Url>, m: Config)
    requires Shape(input, base, m) && SoundConfig(m) && Placed(input, None, m)
    requires !InLoop(input, m) && !m.u.invalid
    ensures Printable(m.u) && (KeptAtEnd(input) ==> Canonical(m.u))
  {
    assert m.cursor == |input| + 1;
    hide HostPart, PathPart, GoodScheme, AllPlain, GoodUser, GoodPassword, GoodHost, GoodPort, GoodPath, GoodQuery,
      GoodFragment, Ready;
  }

  /** What holds at every point of the loop on the way to a canonical object. */
  predicate OnTheWay(input: string, base: Option<Url>, m: Config) {
    Shape(input, base, m) && SoundConfig(m) && Placed(input, None, m) && Origin(input, m)
  }

  /** From such a point, on a text that does not borrow, the parser ends on a printable object, and on a canonical
      one if the text ends with nothing to trim. */
  lemma {:induction false} RunCanonical(input: string, base: Option<Url>, m: Config)
    requires OnTheWay(input, base, m) && CanonicalBase(base) && !Borrows(input, base)
    ensures var o := Run(input, None, base, m);
      o.Done? && !o.u.invalid ==> Printable(o.u) && (KeptAtEnd(input) ==> Canonical(o.u))
    decreases Rank(m.state), |input| + 1 - m.cursor
  {
    if InLoop(input, m) {
      StepProgress(input, None, base, m);
      OnTheWayStep(input, base, m);
      hide Step, OnTheWay, Borrows, Hierarchical;
      var r := Step(input, None, base, m);
      if r.Next? { RunCanonical(input, base, r.next); }
    } else if !m.u.invalid {
      LoopEnd(input, base, m);
    }
  }

  lemma OnTheWayStep(input: string, base: Option<Url>, m: Config)
    requires OnTheWay(input, base, m) && CanonicalBase(base) && !Borrows(input, base)
    requires InLoop(input, m)
    ensures var r := Step(input, None, base, m);
            && (r.Next? ==> OnTheWay(input, base, r.next))
            && (r.Break? && !r.u.invalid ==> Canonical(r.u))
  {
    hide Step, Shape, Sound, Ready, Placed, Origin, Borrows, Hierarchical;
    StepShape(input, base, m);
    OriginStep(input, base, m);
    StepReady(input, None, base, m);
    StepPlaced(input, None, base, m);
    StepKeeps(input, None, base, m);
    var r := Step(input, None, base, m);
    if r.Break? { BrokenCanonical(r.u); }
  }

  lemma BrokenCanonical(u: Url)
    requires Sound(u) && Hierarchical(u) && u.fragment == ""
    ensures Canonical(u)
  {
  }

  lemma {:induction false} TrimRightKept(s: string)
    ensures KeptAtEnd(TrimRight(s))
    decreases |s|
  {
    if s != "" && IsTrimmed(s[|s| - 1]) { TrimRightKept(s[..|s| - 1]); }
  }

  lemma StartOnTheWay(input: string, base: Option<Url>)
    ensures OnTheWay(input, base, Start(None, BLANK))
  {
    assert Lower("") == "";
  }

  /** Whatever text the constructor accepts, with no base or with a canonical base, it makes a
      canonical object of it, unless the text borrows from a base of another scheme. */
  lemma UnborrowedCanonical(text: string, base: Option<Url>)
    requires CanonicalBase(base) && !Borrows(Trim(text), base)
    ensures var o := Construct(text, base); o.Done? && !o.u.invalid ==> Canonical(o.u)
  {
    hide Run, Borrows, OnTheWay, KeptAtEnd, Canonical, Printable;
    TrimRightKept(TrimLeft(text));
    StartOnTheWay(Trim(text), base);
    RunCanonical(Trim(text), base, Start(None, BLANK));
  }
}
