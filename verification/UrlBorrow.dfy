/** File URLs that borrow from a base of another scheme, and with them the exact account of what the
    constructor makes of a text: when the object is canonical. */
module UrlBorrow {
  import opened Wrappers
  import opened Text
  import opened UrlMachine
  import opened UrlInvariant
  import opened UrlScan
  import opened UrlCursor
  import opened UrlCanonical

  // ---------- runs that do not look at the base ----------

  /** No later round reads the base. */
  predicate PastBase(m: Config) {
    Rank(m.state) < 13 || (m.state == RelativeSlash && IsFile(m.u.scheme))
  }

  lemma PastBaseStep(input: string, b1: Option<Url>, b2: Option<Url>, m: Config)
    requires PastBase(m)
    ensures Step(input, None, b1, m) == Step(input, None, b2, m)
    ensures var r := Step(input, None, b1, m); r.Next? ==> PastBase(r.next)
  {
    StepProgress(input, None, b1, m);
    hide StepFileHost, StepHost, StepPort, StepRelativePath, StepQuery, StepFragment, StepAuthority;
  }

  lemma {:induction false} BaseFree(input: string, b1: Option<Url>, b2: Option<Url>, m: Config)
    requires PastBase(m)
    ensures Run(input, None, b1, m) == Run(input, None, b2, m)
    decreases Rank(m.state), |input| + 1 - m.cursor
  {
    if InLoop(input, m) {
      StepProgress(input, None, b1, m);
      PastBaseStep(input, b1, b2, m);
      hide Step, PastBase;
      var r := Step(input, None, b1, m);
      if r.Next? { BaseFree(input, b1, b2, r.next); }
    }
  }

  /** The point after "file:". */
  function AfterFile(): Config { Config(Relative, 5, "", false, false, Head("file")) }

  lemma FileSchemeRead(s: string, base: Option<Url>)
    requires HasFileScheme(s)
    ensures Parse(s, None, base, BLANK) == Run(s, None, base, AfterFile())
  {
    hide Run;
    var t := Lower(s[..4]);
    assert t[0] == 'f' && t[1] == 'i' && t[2] == 'l' && t[3] == 'e';
    var m := Config(Scheme, 1, "f", false, false, BLANK);
    Round(s, None, base, Start(None, BLANK), m);
    SchemeScan(s, None, base, m, 4);
    assert "f" + Lower(Slice(s, 1, 4)) == "file";
    Round(s, None, base, Config(Scheme, 4, "file", false, false, BLANK), AfterFile());
  }

  /** A file URL that goes on with a slash or a drive letter reads the same against every base. */
  lemma KeepsOff(s: string, b1: Option<Url>, b2: Option<Url>)
    requires HasFileScheme(s) && (IsSlash(At(s, 5)) || StartsWithDrive(At(s, 5), At(s, 6), At(s, 7)))
    ensures Parse(s, None, b1, BLANK) == Parse(s, None, b2, BLANK)
  {
    hide Run, Parse, HasFileScheme;
    FileSchemeRead(s, b1);
    FileSchemeRead(s, b2);
    var m := AfterFile();
    var n := if IsSlash(At(s, 5)) then m.(state := RelativeSlash, cursor := 6) else m.(state := RelativePath);
    assert InLoop(s, m) by { LongEnough(s); }
    Round(s, None, b1, m, n);
    Round(s, None, b2, m, n);
    BaseFree(s, b1, b2, n);
  }

  lemma LongEnough(s: string)
    requires HasFileScheme(s)
    ensures |s| >= 5
  {
  }

  // ---------- what is borrowed ----------

  predicate EndsPath(c: Option<char>) { c.None? || c == Some('?') || c == Some('#') }

  /** The segments of the path that s starts with, escaped; buffer is what has been read of the first. */
  function Segments(s: string, buffer: string): (r: seq<string>)
    ensures r != []
  {
    if EndsPath(At(s, 0)) then [buffer]
    else if IsSlash(At(s, 0)) then [buffer] + Segments(s[1..], "")
    else if IsTabOrNewline(s[0]) then Segments(s[1..], buffer)
    else Segments(s[1..], buffer + PercentEscape(s[0]))
  }

  /** The path that comes of it: the base's own, or the text's after the base's directory. */
  function BorrowedPath(s: string, base: Url): seq<string>
    requires |s| >= 5
  {
    if EndsPath(At(s, 5)) then base.path else PushSegments(true, PopLast(base.path), Segments(s[5..], ""))
  }

  /** The base lends what a file URL can be printed with: no port, a host that does not look like a drive, and
      a path that is there and does not begin with a drive spelled with '|'. */
  predicate Lends(s: string, base: Url)
    requires |s| >= 5
  {
    && base.port == "" && !IsDrive(base.host)
    && var path := BorrowedPath(s, base); path != [] && !IsPipeDrive(path[0])
  }

  /** The object that the text makes is one that survives printing. */
  predicate Survives(text: string, base: Option<Url>) {
    Borrows(Trim(text), base) ==> Lends(Trim(text), base.value)
  }

  // ---------- the path, and the rest ----------

  /** The states from the path on. */
  predicate Late(input: string, m: Config) {
    m.state in {RelativePath, Query, Fragment} && 0 <= m.cursor <= |input| + 1 && !m.u.invalid
  }

  /** The same but for host, port and path. */
  predicate Alike(u: Url, v: Url) { v == u.(host := v.host, port := v.port, path := v.path) }

  predicate SameKind(u: Url, v: Url) { u.scheme == v.scheme && u.relative == v.relative }

  /** The round of a late state. */
  function LateMove(m: Config, c: Option<char>): Move
    requires m.state in {RelativePath, Query, Fragment}
  {
    if m.state == RelativePath then StepRelativePath(None, m, c)
    else if m.state == Query then StepQuery(None, m, c)
    else StepFragment(m, c)
  }

  lemma LateIsStep(input: string, base: Option<Url>, m: Config)
    requires m.state in {RelativePath, Query, Fragment}
    ensures Step(input, None, base, m) == LateMove(m, At(input, m.cursor))
  {
    hide StepRelativePath, StepQuery, StepFragment;
  }

  lemma LateMoves(m: Config, c: Option<char>)
    requires m.state in {RelativePath, Query, Fragment} && !m.u.invalid
    ensures var r := LateMove(m, c);
      && r.Next? && r.next.state in {RelativePath, Query, Fragment} && r.next.cursor == m.cursor + 1
      && !r.next.u.invalid
      && r.next.u.host == m.u.host && r.next.u.port == m.u.port && SameKind(r.next.u, m.u)
      && (m.state != RelativePath ==> r.next.u.path == m.u.path && r.next.state != RelativePath)
  {
    hide PushSegment, PercentEscape, PercentEscapeQuery, IsTabOrNewline;
  }

  lemma LateStep(input: string, base: Option<Url>, m: Config)
    requires Late(input, m) && m.cursor <= |input|
    ensures var r := Step(input, None, base, m);
      && r == LateMove(m, At(input, m.cursor)) && r.Next? && Late(input, r.next) && r.next.cursor == m.cursor + 1
      && r.next.u.host == m.u.host && r.next.u.port == m.u.port && SameKind(r.next.u, m.u)
      && (m.state != RelativePath ==> r.next.u.path == m.u.path && r.next.state != RelativePath)
  {
    hide Step, LateMove;
    LateIsStep(input, base, m);
    LateMoves(m, At(input, m.cursor));
  }

  /** A late run ends, with host, port and scheme as they were, and past the path state with the path. */
  lemma {:induction false} LateRun(input: string, base: Option<Url>, m: Config)
    requires Late(input, m)
    ensures var o := Run(input, None, base, m);
      && o.Done? && !o.u.invalid && o.u.host == m.u.host && o.u.port == m.u.port && SameKind(o.u, m.u)
      && (m.state != RelativePath || m.cursor == |input| + 1 ==> o.u.path == m.u.path)
    decreases |input| + 1 - m.cursor
  {
    if m.cursor <= |input| {
      LateStep(input, base, m);
      hide Step;
      LateRun(input, base, Step(input, None, base, m).next);
    }
  }

  /** The path state pushes the segments that the text spells. */
  lemma {:induction false} PathRun(input: string, base: Option<Url>, m: Config)
    requires Late(input, m) && m.state == RelativePath && m.cursor <= |input|
    ensures Run(input, None, base, m).u.path ==
            PushSegments(IsFile(m.u.scheme), m.u.path, Segments(input[m.cursor..], m.buffer))
    decreases |input| - m.cursor
  {
    hide Segments, PushSegments, Run, Step, StepRelativePath;
    LateStep(input, base, m);
    var n := Step(input, None, base, m).next;
    PathRound(input, m, n);
    Round(input, None, base, m, n);
    if EndsPath(At(input, m.cursor)) {
      LateRun(input, base, n);
    } else {
      PathRun(input, base, n);
    }
  }

  /** One round of the path state, as seen from the segments still to come. */
  lemma PathRound(input: string, m: Config, n: Config)
    requires m.state == RelativePath && 0 <= m.cursor <= |input|
    requires StepRelativePath(None, m, At(input, m.cursor)) == Next(n)
    ensures EndsPath(At(input, m.cursor)) ==>
      && n.u.path == PushSegments(IsFile(m.u.scheme), m.u.path, Segments(input[m.cursor..], m.buffer))
      && (n.state != RelativePath || n.cursor == |input| + 1)
    ensures !EndsPath(At(input, m.cursor)) ==>
      && m.cursor < |input| && n.state == RelativePath && n.cursor == m.cursor + 1
      && PushSegments(IsFile(m.u.scheme), m.u.path, Segments(input[m.cursor..], m.buffer)) ==
         PushSegments(IsFile(m.u.scheme), n.u.path, Segments(input[n.cursor..], n.buffer))
  {
    var f, s, c := IsFile(m.u.scheme), input[m.cursor..], At(input, m.cursor);
    assert At(s, 0) == c && (c.Some? ==> s[1..] == input[m.cursor + 1..] && s[0] == c.value);
    SegmentsOf(s, m.buffer);
    PathMoves(m, n, c);
    hide PushSegment, PercentEscape, IsTabOrNewline, Segments, PushSegments, At, IsFile, StepRelativePath;
    if EndsPath(c) {
      PushLast(f, m.u.path, m.buffer);
    } else if IsSlash(c) {
      PushMore(f, m.u.path, m.buffer, Segments(s[1..], ""));
    }
  }

  lemma PathMoves(m: Config, n: Config, c: Option<char>)
    requires m.state == RelativePath && StepRelativePath(None, m, c) == Next(n)
    ensures n.cursor == m.cursor + 1 && n.u.scheme == m.u.scheme
    ensures EndsPath(c) ==>
      && n.u.path == PushSegment(IsFile(m.u.scheme), m.u.path, m.buffer, false)
      && (n.state == RelativePath ==> c.None?)
    ensures !EndsPath(c) ==>
      && n.state == RelativePath
      && n.u.path ==
         (if IsSlash(c) then PushSegment(IsFile(m.u.scheme), m.u.path, m.buffer, true) else m.u.path)
      && n.buffer ==
         if IsSlash(c) then "" else if IsTabOrNewline(c.value) then m.buffer else m.buffer + PercentEscape(c.value)
  {
    hide PushSegment, PercentEscape, IsTabOrNewline, IsFile;
  }

  lemma SegmentsOf(s: string, buffer: string)
    ensures Segments(s, buffer) ==
      if EndsPath(At(s, 0)) then [buffer]
      else if IsSlash(At(s, 0)) then [buffer] + Segments(s[1..], "")
      else if IsTabOrNewline(s[0]) then Segments(s[1..], buffer)
      else Segments(s[1..], buffer + PercentEscape(s[0]))
  {
  }

  lemma PushLast(file: bool, path: seq<string>, segment: string)
    ensures PushSegments(file, path, [segment]) == PushSegment(file, path, segment, false)
  {
    hide PushSegment;
  }

  lemma PushMore(file: bool, path: seq<string>, segment: string, rest: seq<string>)
    requires rest != []
    ensures PushSegments(file, path, [segment] + rest) ==
            PushSegments(file, PushSegment(file, path, segment, true), rest)
  {
    hide PushSegment;
    assert ([segment] + rest)[1..] == rest;
  }

  lemma AlikeMoves(m: Config, n: Config, c: Option<char>)
    requires m.state in {RelativePath, Query, Fragment} && n == m.(u := n.u) && Alike(m.u, n.u)
    ensures var r, q := LateMove(m, c), LateMove(n, c);
      r.Next? && q.Next? && q.next == r.next.(u := q.next.u) && Alike(r.next.u, q.next.u)
  {
    hide PushSegment, PercentEscape, PercentEscapeQuery, IsTabOrNewline;
    if m.state == RelativePath { AlikePath(m, n, c); }
    hide StepRelativePath;
  }

  lemma AlikePath(m: Config, n: Config, c: Option<char>)
    requires m.state == RelativePath && n == m.(u := n.u) && Alike(m.u, n.u)
    ensures var r, q := StepRelativePath(None, m, c), StepRelativePath(None, n, c);
      r.Next? && q.Next? && q.next == r.next.(u := q.next.u) && Alike(r.next.u, q.next.u)
  {
    if EndsPath(c) || IsSlash(c) {
      AlikeEnd(m, n, c);
    } else {
      AlikeOn(m, n, c);
    }
    hide StepRelativePath, Alike;
  }

  lemma AlikeEnd(m: Config, n: Config, c: Option<char>)
    requires m.state == RelativePath && n == m.(u := n.u) && Alike(m.u, n.u) && (EndsPath(c) || IsSlash(c))
    ensures var r, q := StepRelativePath(None, m, c), StepRelativePath(None, n, c);
      r.Next? && q.Next? && q.next == r.next.(u := q.next.u) && Alike(r.next.u, q.next.u)
  {
    hide PushSegment, PercentEscape, IsTabOrNewline, IsFile;
  }

  lemma AlikeOn(m: Config, n: Config, c: Option<char>)
    requires m.state == RelativePath && n == m.(u := n.u) && Alike(m.u, n.u) && !EndsPath(c) && !IsSlash(c)
    ensures var r, q := StepRelativePath(None, m, c), StepRelativePath(None, n, c);
      r.Next? && q.Next? && q.next == r.next.(u := q.next.u) && Alike(r.next.u, q.next.u)
  {
    hide PushSegment, PercentEscape, IsTabOrNewline, IsFile;
  }

  lemma AlikeStep(input: string, base: Option<Url>, m: Config, n: Config)
    requires Late(input, m) && m.cursor <= |input| && n == m.(u := n.u) && Alike(m.u, n.u)
    ensures var r, q := Step(input, None, base, m), Step(input, None, base, n);
      r.Next? && q.Next? && q.next == r.next.(u := q.next.u) && Alike(r.next.u, q.next.u)
  {
    hide Step, LateMove, Alike;
    LateIsStep(input, base, m);
    LateIsStep(input, base, n);
    AlikeMoves(m, n, At(input, m.cursor));
  }

  /** Host, port and path do not bear on what else is read. */
  lemma {:induction false} AlikeRun(input: string, base: Option<Url>, m: Config, n: Config)
    requires Late(input, m) && n == m.(u := n.u) && Alike(m.u, n.u)
    ensures Alike(Run(input, None, base, m).u, Run(input, None, base, n).u)
    decreases |input| + 1 - m.cursor
  {
    assert Late(input, n);
    if m.cursor <= |input| {
      AlikeStep(input, base, m, n);
      LateStep(input, base, m);
      hide Step, Alike;
      AlikeRun(input, base, Step(input, None, base, m).next, Step(input, None, base, n).next);
    }
  }

  // ---------- when the object is canonical ----------

  lemma CanonicalAlike(u: Url, v: Url)
    requires Canonical(v) && v.relative && IsFile(v.scheme) && Sound(u) && Alike(v, u)
    ensures Canonical(u) <==> u.port == "" && !IsDrive(u.host) && u.path != [] && !IsPipeDrive(u.path[0])
  {
    hide GoodScheme, IsRelativeScheme, IsDrive, IsPipeDrive, GoodPath, GoodHost, GoodPort;
  }

  /** The same point with nothing borrowed but a path of one empty segment. */
  function Unlent(m: Config): Config { m.(u := m.u.(host := "", port := "", path := [""])) }

  lemma UnlentRun(input: string, m: Config)
    requires KeptAtEnd(input) && OnTheWay(input, None, Unlent(m)) && Late(input, m)
    requires m.u.relative && IsFile(m.u.scheme)
    ensures var u := Run(input, None, None, Unlent(m)).u;
      Canonical(u) && u.relative && IsFile(u.scheme)
  {
    hide OnTheWay, Canonical;
    assert Late(input, Unlent(m));
    LateRun(input, None, Unlent(m));
    RunCanonical(input, None, Unlent(m));
    assert IsRelativeScheme("file");
    CanonicalRelative(Run(input, None, None, Unlent(m)).u);
  }

  lemma CanonicalRelative(u: Url)
    requires Canonical(u) && IsRelativeScheme(u.scheme)
    ensures u.relative
  {
  }

  /** From a late point, what host, port and path turn out to be decides. */
  lemma LateCanonical(input: string, base: Option<Url>, m: Config)
    requires KeptAtEnd(input) && OnTheWay(input, None, Unlent(m)) && Late(input, m)
    requires m.u.relative && IsFile(m.u.scheme)
    requires SoundConfig(m)
    ensures var o := Run(input, None, base, m);
      && o.Done? && !o.u.invalid && o.u.host == m.u.host && o.u.port == m.u.port && SameKind(o.u, m.u)
      && (Canonical(o.u) <==>
            m.u.port == "" && !IsDrive(m.u.host) && o.u.path != [] && !IsPipeDrive(o.u.path[0]))
  {
    hide OnTheWay, Canonical, SoundConfig, Run, IsDrive, IsPipeDrive;
    BaseFree(input, base, None, m);
    LateRun(input, None, m);
    UnlentRun(input, m);
    assert Alike(Unlent(m).u, m.u) && Late(input, Unlent(m));
    AlikeRun(input, None, Unlent(m), m);
    RunKeeps(input, None, None, m);
    CanonicalAlike(Run(input, None, None, m).u, Run(input, None, None, Unlent(m)).u);
  }

  /** The object after the base has been taken over. */
  function Lent(base: Url): Url { Inherit(Head("file"), base) }

  /** The point at which the relative state leaves a text that borrows and goes on. */
  function LentPoint(s: string, base: Url): Config
    requires |s| > 5
  {
    var m := AfterFile();
    if s[5] == '?' then m.(state := Query, cursor := 6, u := Lent(base).(query := "?"))
    else if s[5] == '#' then m.(state := Fragment, cursor := 6, u := Lent(base).(query := base.query, fragment := "#"))
    else m.(state := RelativePath, u := Lent(base).(path := PopLast(base.path)))
  }

  lemma LentSound(s: string, base: Url)
    requires |s| > 5 && Sound(base)
    ensures SoundConfig(LentPoint(s, base)) && SoundConfig(Unlent(LentPoint(s, base)))
  {
    hide GoodPath, GoodHost, GoodPort, GoodUser, GoodPassword;
    LentPaths(base.path);
    assert Sound(Lent(base));
  }

  lemma LentPaths(path: seq<string>)
    requires GoodPath(path)
    ensures GoodPath(PopLast(path)) && GoodPath([""]) && GoodHost("") && GoodPort("")
    ensures GoodUser("") && GoodPassword(None)
  {
    assert Lower("") == "";
    assert GoodSegment("");
    hide GoodSegment;
  }

  lemma LentShape(s: string, base: Url)
    requires |s| > 5
    ensures Shape(s, None, Unlent(LentPoint(s, base)))
  {
    assert !IsDrive("") && !IsPipeDrive("") && GoodScheme("file");
    FileIsRelative();
    hide IsRelativeScheme, AtFree, GoodScheme, IsDrive, IsPipeDrive;
  }

  lemma LentOnTheWay(s: string, base: Url)
    requires |s| > 5 && Sound(base)
    ensures var m := LentPoint(s, base);
      && Late(s, m) && OnTheWay(s, None, Unlent(m)) && SoundConfig(m) && m.u.relative && IsFile(m.u.scheme)
  {
    hide Shape, SoundConfig;
    LentSound(s, base);
    LentShape(s, base);
  }

  lemma FileIsRelative()
    ensures IsRelativeScheme("file")
  {
  }

  /** The rounds of a text that borrows, from the scheme on. */
  lemma LentRead(s: string, base: Url)
    requires Borrows(s, Some(base))
    ensures |s| == 5 ==> Parse(s, None, Some(base), BLANK) == Done(Lent(base).(query := base.query))
    ensures |s| > 5 ==> Parse(s, None, Some(base), BLANK) == Run(s, None, Some(base), LentPoint(s, base))
  {
    hide Run, Parse, HasFileScheme;
    LongEnough(s);
    FileSchemeRead(s, Some(base));
    assert At(s, 5) == if |s| == 5 then None else Some(s[5]);
    LentStep(s, base);
    if |s| == 5 {
      BreakRound(s, None, Some(base), AfterFile(), Lent(base).(query := base.query));
    } else {
      Round(s, None, Some(base), AfterFile(), LentPoint(s, base));
    }
  }

  lemma LentStep(s: string, base: Url)
    requires |s| >= 5 && !IsSlash(At(s, 5)) && !StartsWithDrive(At(s, 5), At(s, 6), At(s, 7))
    ensures Step(s, None, Some(base), AfterFile()) ==
            if |s| == 5 then Break(Lent(base).(query := base.query)) else Next(LentPoint(s, base))
  {
    hide StartsWithDrive, PopLast;
  }

  lemma NothingMore(base: Url)
    requires Canonical(base)
    ensures var u := Lent(base).(query := base.query);
      Canonical(u) <==> base.port == "" && !IsDrive(base.host) && base.path != [] && !IsPipeDrive(base.path[0])
  {
    FileIsRelative();
    assert GoodScheme("file");
    hide GoodScheme, IsRelativeScheme, IsDrive, IsPipeDrive, GoodPath, GoodHost, GoodPort, GoodQuery, Opaque;
  }

  /** A text that borrows makes an object with the base's host and port, canonical exactly when the base
      lends what can be printed. */
  lemma BorrowedCanonical(s: string, base: Url)
    requires Canonical(base) && Borrows(s, Some(base)) && KeptAtEnd(s)
    ensures var o := Parse(s, None, Some(base), BLANK);
      && o.Done? && !o.u.invalid && |s| >= 5 && IsFile(o.u.scheme) && o.u.relative
      && o.u.host == base.host && o.u.port == base.port
      && o.u.path == BorrowedPath(s, base) && (Canonical(o.u) <==> Lends(s, base))
  {
    hide Run, Parse, HasFileScheme, OnTheWay, SoundConfig, IsDrive, IsPipeDrive, Segments, PushSegments, PopLast;
    assert |s| >= 5 by { LongEnough(s); }
    assert Sound(base);
    hide Canonical, Sound;
    LentRead(s, base);
    if |s| == 5 {
      NothingMore(base);
    } else {
      var m := LentPoint(s, base);
      LentOnTheWay(s, base);
      LateCanonical(s, Some(base), m);
      if m.state == RelativePath { PathRun(s, Some(base), m); } else { LateRun(s, Some(base), m); }
    }
  }

  // ---------- every text ----------

  /** The constructor's object, with no base or with a canonical one, is canonical if and only if the text does
      not borrow from a base of another scheme, or borrows what can be printed. */
  lemma ConstructCanonical(text: string, base: Option<Url>)
    requires CanonicalBase(base)
    ensures var o := Construct(text, base);
            o.Done? && !o.u.invalid ==> (Canonical(o.u) <==> Survives(text, base))
  {
    hide Parse, Canonical, Borrows, Lends;
    if Borrows(Trim(text), base) {
      assert base.Some? && |Trim(text)| >= 5 by { BorrowsLong(text, base); }
      TrimRightKept(TrimLeft(text));
      BorrowedCanonical(Trim(text), base.value);
    } else {
      UnborrowedCanonical(text, base);
    }
  }

  lemma BorrowsLong(text: string, base: Option<Url>)
    requires Borrows(Trim(text), base)
    ensures base.Some? && |Trim(text)| >= 5
  {
  }
}
