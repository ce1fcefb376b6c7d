/** Resolving a relative reference against a base refines the path and query rules of
    section 5.2 of RFC 3986. */
module UrlRfc3986 {
  import opened Wrappers
  import opened Text
  import opened UrlMachine
  import opened UrlInvariant
  import opened UrlScan
  import opened UrlCanonical
  import opened UrlRoundTrip

  // ---------- the standard ----------

  /** output without its last segment and the slash before it. */
  function RemoveLast(output: string): string {
    if output == "" then ""
    else if output[|output| - 1] == '/' then output[..|output| - 1]
    else RemoveLast(output[..|output| - 1])
  }

  /** The length of the first path segment, its initial slash included. */
  function FirstLength(input: string): (k: nat)
    requires input != ""
    ensures 0 < k <= |input|
  {
    if input[0] == '/' then 1 + Find(input[1..], '/') else Find(input, '/')
  }

  /** s begins with the characters a, b and, if there is one, c. */
  predicate Begins(s: string, a: char, b: char, c: Option<char>) {
    At(s, 0) == Some(a) && At(s, 1) == Some(b) && (c.Some? ==> At(s, 2) == c)
  }

  /** s begins with "/../". */
  predicate BeginsUp(s: string) { Begins(s, '/', '.', Some('.')) && At(s, 3) == Some('/') }

  /** remove_dot_segments, section 5.2.4: steps 2A to 2E on the input and output buffers. */
  function RemoveDots(input: string, output: string): string
    decreases |input|
  {
    if input == "" then output
    else if Begins(input, '.', '.', Some('/')) then RemoveDots(input[3..], output)
    else if Begins(input, '.', '/', None) then RemoveDots(input[2..], output)
    else if Begins(input, '/', '.', Some('/')) then RemoveDots(input[2..], output)
    else if Begins(input, '/', '.', None) && |input| == 2 then RemoveDots("/", output)
    else if BeginsUp(input) then RemoveDots(input[3..], RemoveLast(output))
    else if Begins(input, '/', '.', Some('.')) && |input| == 3 then RemoveDots("/", RemoveLast(output))
    else if input == "." || input == ".." then output
    else
      var k := FirstLength(input);
      RemoveDots(input[k..], output + input[..k])
  }

  /** path up to its right-most slash, which stays. */
  function UpToLastSlash(path: string): string {
    if path == "" then ""
    else if path[|path| - 1] == '/' then path
    else UpToLastSlash(path[..|path| - 1])
  }

  /** merge, section 5.2.3, for a base with an authority. */
  function Merge(basePath: string, refPath: string): string {
    if basePath == "" then "/" + refPath else UpToLastSlash(basePath) + refPath
  }

  /** A relative reference without authority, by its components. */
  datatype Reference = Reference(path: string, query: Option<string>, fragment: Option<string>)

  /** The target's path and query, section 5.2.2. */
  function TargetPath(basePath: string, r: Reference): string {
    if r.path == "" then basePath
    else if r.path[0] == '/' then RemoveDots(r.path, "")
    else RemoveDots(Merge(basePath, r.path), "")
  }

  function TargetQuery(baseQuery: Option<string>, r: Reference): Option<string> {
    if r.path == "" && r.query.None? then baseQuery else r.query
  }

  // ---------- references and queries as text ----------

  function Marked(mark: char, part: Option<string>): string {
    if part.Some? then [mark] + part.value else ""
  }

  function ReferenceText(r: Reference): string {
    r.path + Marked('?', r.query) + Marked('#', r.fragment)
  }

  /** A query field: its mark is there when the query is defined. */
  function QueryPart(query: string): Option<string> {
    if query == "" then None else Some(query[1..])
  }

  // ---------- dot segments on lists of segments ----------

  /** A path as text, each segment after a slash. */
  function Show(path: seq<string>): string {
    if path == [] then "" else Show(path[..|path| - 1]) + "/" + path[|path| - 1]
  }

  predicate NoSlashes(path: seq<string>) { forall i :: 0 <= i < |path| ==> '/' !in path[i] }

  lemma ShowPush(path: seq<string>, segment: string)
    ensures Show(path + [segment]) == Show(path) + "/" + segment
  {
    assert (path + [segment])[..|path|] == path;
  }

  lemma {:induction false} RemoveLastSegment(out: string, segment: string)
    requires '/' !in segment
    ensures RemoveLast(out + "/" + segment) == out
    decreases |segment|
  {
    var s := out + "/" + segment;
    if segment == "" {
      assert s[..|s| - 1] == out;
    } else {
      assert s[|s| - 1] in segment;
      assert s[..|s| - 1] == out + "/" + segment[..|segment| - 1];
      RemoveLastSegment(out, segment[..|segment| - 1]);
    }
  }

  lemma RemoveLastShow(path: seq<string>)
    requires NoSlashes(path)
    ensures RemoveLast(Show(path)) == Show(PopLast(path))
  {
    if path != [] { RemoveLastSegment(Show(PopLast(path)), path[|path| - 1]); }
  }

  /** None of the steps 2A to 2D applies. */
  predicate Undotted(s: string) {
    && At(s, 0) == Some('/')
    && !Begins(s, '/', '.', Some('/')) && !(Begins(s, '/', '.', None) && |s| == 2)
    && !BeginsUp(s) && !(Begins(s, '/', '.', Some('.')) && |s| == 3)
  }

  lemma NotDots(segment: string, rest: string)
    requires '/' !in segment && segment != "." && segment != ".."
    requires rest == "" || rest[0] == '/'
    ensures Undotted("/" + segment + rest)
  {
    var s := "/" + segment + rest;
    assert s[0] == '/';
    assert forall i :: 0 <= i < |segment| ==> s[i + 1] == segment[i] && segment[i] in segment;
    assert rest != "" ==> s[|segment| + 1] == '/';
    assert |segment| == 1 ==> segment == [segment[0]];
    assert |segment| == 2 ==> segment == [segment[0], segment[1]];
  }

  lemma PlainStep(s: string, out: string)
    requires Undotted(s)
    ensures RemoveDots(s, out) == RemoveDots(s[FirstLength(s)..], out + s[..FirstLength(s)])
  {
    assert s[0] == '/';
  }

  lemma DotStep(s: string, out: string)
    ensures Begins(s, '/', '.', Some('/')) ==> RemoveDots(s, out) == RemoveDots(s[2..], out)
    ensures BeginsUp(s) ==> RemoveDots(s, out) == RemoveDots(s[3..], RemoveLast(out))
  {}

  lemma LastDotStep(out: string)
    ensures RemoveDots("/.", out) == RemoveDots("/", out)
    ensures RemoveDots("/..", out) == RemoveDots("/", RemoveLast(out))
    ensures RemoveDots("", out) == out
  {}

  lemma FirstSegmentLength(segment: string, rest: string)
    requires '/' !in segment && (rest == "" || rest[0] == '/')
    ensures FirstLength("/" + segment + rest) == |segment| + 1
  {
    var s := "/" + segment + rest;
    FindPrefix(segment, '/', if rest == "" then "" else rest[1..]);
    assert s[1..] == if rest == "" then segment else segment + ['/'] + rest[1..];
  }

  /** A segment that is no dot segment moves to the output. */
  lemma DotsPlain(segment: string, rest: string, out: string)
    requires '/' !in segment && segment != "." && segment != ".."
    requires rest == "" || rest[0] == '/'
    ensures RemoveDots("/" + segment + rest, out) == RemoveDots(rest, out + "/" + segment)
  {
    var s := "/" + segment + rest;
    hide RemoveDots, FirstLength, Undotted;
    NotDots(segment, rest);
    FirstSegmentLength(segment, rest);
    PlainStep(s, out);
    assert s[..|segment| + 1] == "/" + segment;
    assert s[|segment| + 1..] == rest;
    assert out + ("/" + segment) == out + "/" + segment;
  }

  /** One segment that a slash follows. */
  lemma DotsMore(segment: string, rest: string, path: seq<string>)
    requires '/' !in segment && Undot(segment) == segment && NoSlashes(path)
    ensures RemoveDots("/" + segment + ("/" + rest), Show(path)) ==
            RemoveDots("/" + rest, Show(PushSegment(false, path, segment, true)))
  {
    hide RemoveDots;
    var s := "/" + segment + ("/" + rest);
    assert s[|segment| + 1..] == "/" + rest;
    DotStep(s, Show(path));
    if segment == "." {
      assert Begins(s, '/', '.', Some('/'));
      assert path + [] == path;
    } else if segment == ".." {
      assert BeginsUp(s);
      RemoveLastShow(path);
      assert PopLast(path) + [] == PopLast(path);
    } else {
      hide Undot;
      DotsPlain(segment, "/" + rest, Show(path));
      ShowPush(path, segment);
    }
  }

  /** The last segment. */
  lemma DotsLast(segment: string, path: seq<string>)
    requires '/' !in segment && Undot(segment) == segment && NoSlashes(path)
    ensures RemoveDots("/" + segment, Show(path)) == Show(PushSegment(false, path, segment, false))
  {
    hide RemoveDots, RemoveLast;
    assert "/" + segment + "" == "/" + segment;
    LastDotStep(Show(path));
    if segment == "." {
      assert "/" + segment == "/.";
      LastEmpty(path);
    } else if segment == ".." {
      assert "/" + segment == "/..";
      RemoveLastShow(path);
      LastEmpty(PopLast(path));
    } else {
      hide Undot;
      DotsPlain(segment, "", Show(path));
      LastDotStep(Show(path) + "/" + segment);
      ShowPush(path, segment);
    }
  }

  lemma LastEmpty(path: seq<string>)
    ensures RemoveDots("/", Show(path)) == Show(path + [""])
  {
    hide RemoveDots;
    assert "/" + "" + "" == "/";
    DotsPlain("", "", Show(path));
    LastDotStep(Show(path) + "/" + "");
    ShowPush(path, "");
  }

  lemma PushNoSlashes(path: seq<string>, segment: string, more: bool)
    requires NoSlashes(path) && '/' !in segment
    ensures NoSlashes(PushSegment(false, path, segment, more))
  {
    hide Lower;
  }

  /** Removing dot segments from the text of a path is the parser's work on its segments. */
  lemma {:induction false} DotsAreSegments(segments: seq<string>, path: seq<string>)
    requires segments != [] && NoSlashes(segments) && NoSlashes(path)
    requires forall i :: 0 <= i < |segments| ==> Undot(segments[i]) == segments[i]
    ensures RemoveDots("/" + Join(segments, '/'), Show(path)) == Show(PushSegments(false, path, segments))
    decreases |segments|
  {
    hide RemoveDots, Undot, PushSegment;
    var more := |segments| > 1;
    PushNoSlashes(path, segments[0], more);
    if more {
      var rest := Join(segments[1..], '/');
      assert "/" + Join(segments, '/') == "/" + segments[0] + ("/" + rest);
      DotsMore(segments[0], rest, path);
      DotsAreSegments(segments[1..], PushSegment(false, path, segments[0], true));
    } else {
      DotsLast(segments[0], path);
      assert PushSegments(false, path, segments) == PushSegment(false, path, segments[0], false);
    }
  }

  lemma {:induction false} ShowJoin(path: seq<string>)
    requires path != []
    ensures Show(path) == "/" + Join(path, '/')
    decreases |path|
  {
    if |path| > 1 {
      var n := |path| - 1;
      ShowJoin(path[..n]);
      JoinLast(path[..n], path[n]);
      assert path[..n] + [path[n]] == path;
    }
  }

  lemma {:induction false} JoinLast(path: seq<string>, segment: string)
    requires path != []
    ensures Join(path + [segment], '/') == Join(path, '/') + "/" + segment
    decreases |path|
  {
    assert (path + [segment])[1..] == path[1..] + [segment];
    if |path| > 1 { JoinLast(path[1..], segment); }
  }

  // ---------- merging ----------

  lemma {:induction false} UpToSlash(out: string, segment: string)
    requires '/' !in segment
    ensures UpToLastSlash(out + "/" + segment) == out + "/"
    decreases |segment|
  {
    var s := out + "/" + segment;
    if segment != "" {
      assert s[|s| - 1] in segment;
      assert s[..|s| - 1] == out + "/" + segment[..|segment| - 1];
      UpToSlash(out, segment[..|segment| - 1]);
    } else {
      assert s == out + "/";
    }
  }

  /** Merging is replacing the last segment of the base. */
  lemma MergeSegments(base: seq<string>, segments: seq<string>)
    requires base != [] && segments != [] && NoSlashes(base)
    ensures Merge(Show(base), Join(segments, '/')) == "/" + Join(PopLast(base) + segments, '/')
  {
    var init := PopLast(base);
    UpToSlash(Show(init), base[|base| - 1]);
    assert init + segments != [];
    ShowJoin(init + segments);
    ShowAppend(init, segments);
    ShowJoin(segments);
    assert Show(init) + "/" + Join(segments, '/') == Show(init) + ("/" + Join(segments, '/'));
  }

  lemma {:induction false} ShowAppend(path: seq<string>, more: seq<string>)
    ensures Show(path + more) == Show(path) + Show(more)
    decreases |more|
  {
    if more == [] {
      assert path + more == path;
    } else {
      var n := |more| - 1;
      assert path + more == (path + more[..n]) + [more[n]];
      ShowAppend(path, more[..n]);
      ShowPush(path + more[..n], more[n]);
    }
  }

  /** Good segments in front stand as they are. */
  lemma {:induction false} PushAfter(path: seq<string>, init: seq<string>, segments: seq<string>)
    requires GoodPath(init) && segments != []
    ensures PushSegments(false, path, init + segments) == PushSegments(false, path + init, segments)
    decreases |init|
  {
    hide PushSegment, PushSegments;
    if init == [] {
      assert init + segments == segments && path + init == path;
    } else {
      var all := init + segments;
      assert all[0] == init[0] && all[1..] == init[1..] + segments;
      PushFirst(false, path, all);
      assert GoodSegment(init[0]);
      hide GoodSegment;
      PushGood(false, path, init[0], true);
      PushAfter(path + [init[0]], init[1..], segments);
      assert path + [init[0]] + init[1..] == path + init;
    }
  }

  // ---------- the parser on a relative reference ----------

  lemma NoSchemeRound(input: string, base: Option<Url>, m: Config)
    requires m.state == Scheme && 0 <= m.cursor <= |input| && m.u == BLANK
    requires m.cursor < |input| ==> !SchemeChar(input[m.cursor]) && input[m.cursor] != ':'
    ensures Run(input, None, base, m) == Run(input, None, base, m.(state := NoScheme, cursor := 0, buffer := ""))
  {
    Round(input, None, base, m, m.(state := NoScheme, cursor := 0, buffer := ""));
  }

  /** Text without a scheme is read as a relative reference, from its start. */
  lemma NoSchemeRead(input: string, base: Url)
    requires !HasScheme(input) && IsRelativeScheme(base.scheme)
    ensures Parse(input, None, Some(base), BLANK) ==
            Run(input, None, Some(base), Config(Relative, 0, "", false, false, BLANK))
  {
    var b := Some(base);
    var n := Config(NoScheme, 0, "", false, false, BLANK);
    if input != "" && Alpha(input[0]) {
      var k := SchemeEnd(input);
      assert SchemeChar(input[0]) && k >= 1;
      hide Run, IsRelativeScheme, SchemeChar;
      SchemeStartRound(input, b, BLANK);
      var m := Config(Scheme, 1, [LowerChar(input[0])], false, false, BLANK);
      SchemeScan(input, None, b, m, k);
      NoSchemeRound(input, b, m.(cursor := k, buffer := m.buffer + Lower(Slice(input, 1, k))));
    } else {
      Round(input, None, b, Start(None, BLANK), n);
    }
    NoSchemeStep(input, base, n);
  }

  lemma NoSchemeStep(input: string, base: Url, n: Config)
    requires n == Config(NoScheme, 0, "", false, false, BLANK) && IsRelativeScheme(base.scheme)
    ensures Run(input, None, Some(base), n) == Run(input, None, Some(base), n.(state := Relative))
  {
    Round(input, None, Some(base), n, n.(state := Relative));
  }

  /** The reference's own path, when it has one. */
  lemma SegmentsRead(input: string, base: Url, m: Config, q: int, f: int, segments: seq<string>)
    requires m.state == RelativePath && m.buffer == "" && !m.u.invalid && m.u.query == "" && m.u.fragment == ""
    requires 0 <= m.cursor <= q && TailAt(input, q, f) && Slice(input, m.cursor, q) == Join(segments, '/')
    requires segments != [] && forall i :: 0 <= i < |segments| ==> AllPath(segments[i])
    ensures Run(input, None, Some(base), m) ==
            Done(m.u.(path := PushSegments(IsFile(m.u.scheme), m.u.path, segments),
                      query := Slice(input, q, f), fragment := Slice(input, f, |input|)))
  {
    hide Run, PushSegments, AllPath, Join, AfterPath, PathEnds, PathAhead, Slice, GoodQuery, GoodFragment;
    TailRead(input, Some(base), m, m.u.(path := PushSegments(IsFile(m.u.scheme), m.u.path, segments)), q, f);
    SegmentsAhead(input, m, q, segments);
    PathScan(input, None, Some(base), m, q, segments);
  }

  lemma SegmentsAhead(input: string, m: Config, q: int, segments: seq<string>)
    requires m.state == RelativePath && m.buffer == "" && !m.u.invalid
    requires 0 <= m.cursor <= q <= |input| && PathEnds(None, At(input, q))
    requires Slice(input, m.cursor, q) == Join(segments, '/')
    requires segments != [] && forall i :: 0 <= i < |segments| ==> AllPath(segments[i])
    ensures PathAhead(input, None, m, q, segments)
  {
    hide AllPath, Join, PathEnds, At;
  }

  // ---------- the theorem ----------

  /** A reference made only of characters that the escaper leaves alone, with no dot segment
      spelled with "%2e", and with neither scheme nor authority. */
  predicate PlainReference(r: Reference) {
    && (forall i :: 0 <= i < |r.path| ==> Plain(r.path[i]) && r.path[i] != '\\')
    && (forall i :: 0 <= i < |Split(r.path, '/')| ==> Undot(Split(r.path, '/')[i]) == Split(r.path, '/')[i])
    && (r.query.Some? ==> forall i :: 0 <= i < |r.query.value| ==> QueryPlain(r.query.value[i]))
    && (r.fragment.Some? ==> forall i :: 0 <= i < |r.fragment.value| ==> QueryPlain(r.fragment.value[i]))
    && !(|r.path| >= 2 && r.path[0] == '/' && r.path[1] == '/')
    && !HasScheme(ReferenceText(r))
  }

  predicate Visible(s: string) { forall i :: 0 <= i < |s| ==> !IsTrimmed(s[i]) }

  lemma ReferenceVisible(r: Reference)
    requires PlainReference(r)
    ensures Visible(r.path) && Visible(Marked('?', r.query)) && Visible(Marked('#', r.fragment))
    ensures GoodQuery(Marked('?', r.query)) && GoodFragment(Marked('#', r.fragment))
  {
    hide HasScheme, Undot, Split;
  }

  lemma VisibleTrim(s: string)
    requires Visible(s)
    ensures Trim(s) == s
  {
    TrimSame(s);
  }

  /** Where query and fragment stand in a reference. */
  lemma ReferenceLayout(r: Reference) returns (q: int, f: int)
    requires PlainReference(r)
    ensures var s := ReferenceText(r);
            && q == |r.path| && TailAt(s, q, f) && Slice(s, 0, q) == r.path
            && Slice(s, q, f) == Marked('?', r.query) && Slice(s, f, |s|) == Marked('#', r.fragment)
            && Trim(s) == s
  {
    hide PlainReference, Marked, IsTrimmed, GoodQuery, GoodFragment, Trim, Visible;
    ReferenceVisible(r);
    var s := ReferenceText(r);
    q := |r.path|;
    f := q + |Marked('?', r.query)|;
    Piece(r.path, Marked('?', r.query), Marked('#', r.fragment));
    Piece("", r.path, Marked('?', r.query) + Marked('#', r.fragment));
    Assoc(r.path, Marked('?', r.query), Marked('#', r.fragment));
    assert "" + r.path == r.path;
    VisibleCat(r.path, Marked('?', r.query));
    VisibleCat(r.path + Marked('?', r.query), Marked('#', r.fragment));
    VisibleTrim(s);
  }

  lemma VisibleCat(x: string, y: string)
    requires Visible(x) && Visible(y)
    ensures Visible(x + y)
  {}


  lemma {:induction false} SplitPath(s: string)
    requires forall i :: 0 <= i < |s| ==> Plain(s[i]) && s[i] != '\\'
    ensures forall i :: 0 <= i < |Split(s, '/')| ==> AllPath(Split(s, '/')[i])
    decreases |s|
  {
    var k := Find(s, '/');
    assert AllPath(s[..k]) by {
      assert forall i :: 0 <= i < k ==> s[..k][i] == s[i] && s[i] in s[..k];
    }
    hide Find, Plain, PathChar;
    if k < |s| { SplitPath(s[k + 1..]); }
    else { assert s[..k] == s; }
  }

  /** The object that a relative reference leads to. */
  function Resolved(base: Url, path: seq<string>, query: string, fragment: string): Url {
    Head(base.scheme).(host := base.host, port := base.port, path := path, query := query, fragment := fragment)
  }

  predicate WebBase(base: Url) {
    Canonical(base) && base.relative && !IsFile(base.scheme) && IsRelativeScheme(base.scheme)
  }

  /** The start of the relative state, on a reference. */
  function AtReference(): Config { Config(Relative, 0, "", false, false, BLANK) }

  lemma TakeBaseRound(s: string, base: Url, n: Config)
    requires !IsFile(base.scheme) && !IsSlash(At(s, 0))
    requires TakeBase(base, AtReference().(u := Head(base.scheme)), At(s, 0)) == Next(n)
    ensures Run(s, None, Some(base), AtReference()) == Run(s, None, Some(base), n)
  {
    Round(s, None, Some(base), AtReference(), n);
    hide Run;
  }

  lemma EmptyReference(s: string, base: Url)
    requires s == "" && !IsFile(base.scheme)
    ensures Run(s, None, Some(base), AtReference()) == Done(Resolved(base, base.path, base.query, ""))
  {
    assert Step(s, None, Some(base), AtReference()) == Break(Resolved(base, base.path, base.query, ""));
    hide Step;
  }

  lemma QueryReference(s: string, base: Url, f: int)
    requires !IsFile(base.scheme) && s != "" && s[0] == '?' && TailAt(s, 0, f) && 0 < f
    ensures Run(s, None, Some(base), AtReference()) ==
            Done(Resolved(base, base.path, Slice(s, 0, f), Slice(s, f, |s|)))
  {
    var n := Config(Query, 1, "", false, false, Resolved(base, base.path, "?", ""));
    TakeBaseRound(s, base, n);
    assert f <= |s| && GoodQuery(Slice(s, 0, f)) && GoodFragment(Slice(s, f, |s|));
    hide Run, GoodQuery, GoodFragment, Slice;
    QueryRead(s, Some(base), n, 0, f);
  }

  lemma FragmentReference(s: string, base: Url)
    requires !IsFile(base.scheme) && s != "" && s[0] == '#' && TailAt(s, 0, 0)
    ensures Run(s, None, Some(base), AtReference()) ==
            Done(Resolved(base, base.path, base.query, Slice(s, 0, |s|)))
  {
    var n := Config(Fragment, 1, "", false, false, Resolved(base, base.path, base.query, "#"));
    TakeBaseRound(s, base, n);
    assert GoodFragment(Slice(s, 0, |s|));
    hide Run, GoodFragment, Slice;
    FragmentRead(s, None, Some(base), n, 0);
  }

  lemma OwnPathRound(s: string, base: Url)
    requires !IsFile(base.scheme) && s != "" && PathChar(s[0])
    ensures Run(s, None, Some(base), AtReference()) ==
            Run(s, None, Some(base),
                Config(RelativePath, 0, "", false, false, Resolved(base, PopLast(base.path), "", "")))
  {
    hide Run;
    TakeBaseRound(s, base, Config(RelativePath, 0, "", false, false, Resolved(base, PopLast(base.path), "", "")));
  }

  /** A path of its own, after the base's directory. */
  lemma PathReference(s: string, base: Url, q: int, f: int, segments: seq<string>)
    requires !IsFile(base.scheme) && s != "" && PathChar(s[0])
    requires TailAt(s, q, f) && 0 <= q && Slice(s, 0, q) == Join(segments, '/')
    requires segments != [] && forall i :: 0 <= i < |segments| ==> AllPath(segments[i])
    ensures Run(s, None, Some(base), AtReference()) ==
            Done(Resolved(base, PushSegments(false, PopLast(base.path), segments), Slice(s, q, f), Slice(s, f, |s|)))
  {
    hide Run, Slice, TailAt, AllPath, PathChar, Join;
    OwnPathRound(s, base);
    var m := Config(RelativePath, 0, "", false, false, Resolved(base, PopLast(base.path), "", ""));
    SegmentsRead(s, base, m, q, f, segments);
  }

  /** The slash of an absolute path, and the character after it. */
  lemma SlashRounds(s: string, base: Url)
    requires !IsFile(base.scheme) && s != "" && s[0] == '/' && !IsSlash(At(s, 1))
    ensures Run(s, None, Some(base), AtReference()) ==
            Run(s, None, Some(base), Config(RelativePath, 1, "", false, false, Resolved(base, [], "", "")))
  {
    var n := Config(RelativeSlash, 1, "", false, false, Head(base.scheme));
    Round(s, None, Some(base), AtReference(), n);
    SlashEndRound(s, base, n);
  }

  lemma SlashEndRound(s: string, base: Url, n: Config)
    requires !IsFile(base.scheme) && 1 <= |s| && !IsSlash(At(s, 1))
    requires n == Config(RelativeSlash, 1, "", false, false, Head(base.scheme))
    ensures Run(s, None, Some(base), n) ==
            Run(s, None, Some(base), Config(RelativePath, 1, "", false, false, Resolved(base, [], "", "")))
  {
    Round(s, None, Some(base), n, Config(RelativePath, 1, "", false, false, Resolved(base, [], "", "")));
  }

  /** An absolute path. */
  lemma RootReference(s: string, base: Url, q: int, f: int, segments: seq<string>)
    requires !IsFile(base.scheme) && s != "" && s[0] == '/' && !IsSlash(At(s, 1))
    requires TailAt(s, q, f) && 1 <= q && Slice(s, 1, q) == Join(segments, '/')
    requires segments != [] && forall i :: 0 <= i < |segments| ==> AllPath(segments[i])
    ensures Run(s, None, Some(base), AtReference()) ==
            Done(Resolved(base, PushSegments(false, [], segments), Slice(s, q, f), Slice(s, f, |s|)))
  {
    hide Run, Slice, TailAt, AllPath, Join;
    SlashRounds(s, base);
    SegmentsRead(s, base, Config(RelativePath, 1, "", false, false, Resolved(base, [], "", "")), q, f, segments);
  }

  lemma GoodNoSlashes(path: seq<string>)
    requires GoodPath(path)
    ensures NoSlashes(path)
  {
    forall i | 0 <= i < |path| ensures '/' !in path[i] { assert GoodSegment(path[i]); }
  }

  /** On the segments of an absolute path the parser computes the standard's path. */
  lemma RootPath(segments: seq<string>)
    requires segments != [] && NoSlashes(segments)
    requires forall i :: 0 <= i < |segments| ==> Undot(segments[i]) == segments[i]
    ensures var path := PushSegments(false, [], segments);
            path != [] && "/" + Join(path, '/') == RemoveDots("/" + Join(segments, '/'), "")
  {
    hide RemoveDots, Undot, Join;
    PushNonempty([], segments);
    assert Show([]) == "";
    DotsAreSegments(segments, []);
    ShowJoin(PushSegments(false, [], segments));
  }

  lemma {:induction false} PushNonempty(path: seq<string>, segments: seq<string>)
    requires segments != []
    ensures PushSegments(false, path, segments) != []
    decreases |segments|
  {
    hide Undot;
    if |segments| > 1 {
      PushFirst(false, path, segments);
      PushNonempty(PushSegment(false, path, segments[0], true), segments[1..]);
    }
  }

  /** On the segments of a path relative to the base the parser computes the standard's merged path. */
  lemma MergedPath(base: seq<string>, segments: seq<string>)
    requires base != [] && GoodPath(base) && segments != [] && NoSlashes(segments)
    requires forall i :: 0 <= i < |segments| ==> Undot(segments[i]) == segments[i]
    ensures var path := PushSegments(false, PopLast(base), segments);
            "/" + Join(path, '/') == RemoveDots(Merge("/" + Join(base, '/'), Join(segments, '/')), "")
  {
    var init := PopLast(base);
    GoodNoSlashes(base);
    forall i | 0 <= i < |init + segments|
      ensures Undot((init + segments)[i]) == (init + segments)[i] && '/' !in (init + segments)[i]
    {
      if i < |init| { assert GoodSegment(base[i]); UndotDots(base[i]); }
    }
    assert GoodPath(init);
    hide RemoveDots, Undot, Join, GoodPath, PushSegments;
    ShowJoin(base);
    MergeSegments(base, segments);
    PushAfter([], init, segments);
    assert [] + init == init;
    RootPath(init + segments);
  }

  /** The resolved object follows section 5.2.2 in path and query, and keeps the base's scheme,
      host and port; user information it has none. */
  predicate FollowsRfc(base: Url, r: Reference, u: Url) {
    && u.scheme == base.scheme && u.host == base.host && u.port == base.port
    && u.username == "" && u.password.None?
    && !u.invalid && u.relative
    && PathText(u) == TargetPath(PathText(base), r)
    && QueryPart(u.query) == TargetQuery(QueryPart(base.query), r)
    && u.fragment == Marked('#', r.fragment)
  }

  lemma MarkedPart(part: Option<string>)
    ensures QueryPart(Marked('?', part)) == part
  {}

  /** References without a path. */
  lemma PathlessFollows(s: string, base: Url, r: Reference, q: int, f: int)
    requires r.path == "" && s == ReferenceText(r) && !IsFile(base.scheme) && base.relative && !base.invalid
    requires q == 0 && TailAt(s, 0, f)
    requires Slice(s, 0, f) == Marked('?', r.query) && Slice(s, f, |s|) == Marked('#', r.fragment)
    ensures var o := Run(s, None, Some(base), AtReference()); o.Done? && FollowsRfc(base, r, o.u)
  {
    MarkedPart(r.query);
    assert f == |Slice(s, 0, f)| == |Marked('?', r.query)|;
    hide Run, RemoveDots, Merge, TailAt, Slice;
    if r.query.Some? {
      assert s[0] == '?';
      QueryReference(s, base, f);
    } else if r.fragment.Some? {
      assert s[0] == '#' && f == 0;
      FragmentReference(s, base);
    } else {
      EmptyReference(s, base);
    }
  }

  lemma ReferencePathChars(r: Reference)
    requires PlainReference(r)
    ensures forall i :: 0 <= i < |Split(r.path, '/')| ==> AllPath(Split(r.path, '/')[i])
    ensures NoSlashes(Split(r.path, '/')) && Join(Split(r.path, '/'), '/') == r.path
  {
    hide HasScheme, Undot;
    SplitPath(r.path);
    SplitParts(r.path, '/');
    JoinSplit(r.path, '/');
  }

  /** References with a path relative to the base. */
  lemma OwnPathFollows(s: string, base: Url, r: Reference, q: int, f: int)
    requires r.path != "" && r.path[0] != '/' && PlainReference(r) && WebBase(base)
    requires s == ReferenceText(r) && TailAt(s, q, f) && q == |r.path| && Slice(s, 0, q) == r.path
    requires Slice(s, q, f) == Marked('?', r.query) && Slice(s, f, |s|) == Marked('#', r.fragment)
    ensures var o := Run(s, None, Some(base), AtReference()); o.Done? && FollowsRfc(base, r, o.u)
  {
    var segments := Split(r.path, '/');
    MarkedPart(r.query);
    ReferencePathChars(r);
    assert s[0] == r.path[0] && PathChar(s[0]);
    assert GoodPath(base.path) && base.path != [] && !base.invalid;
    assert forall i :: 0 <= i < |segments| ==> Undot(segments[i]) == segments[i];
    hide Run, RemoveDots, Merge, TailAt, Slice, Split, Join, Undot, AllPath, PathChar, WebBase, PlainReference,
      GoodPath, NoSlashes;
    MergedPath(base.path, segments);
    PathReference(s, base, q, f, segments);
  }

  /** The segments of an absolute path, after its slash. */
  lemma RootSegments(r: Reference) returns (segments: seq<string>)
    requires r.path != "" && r.path[0] == '/' && PlainReference(r)
    ensures segments != [] && NoSlashes(segments) && Join(segments, '/') == r.path[1..]
    ensures forall i :: 0 <= i < |segments| ==> AllPath(segments[i]) && Undot(segments[i]) == segments[i]
  {
    hide HasScheme, Undot, AllPath, Join, Split;
    var all := Split(r.path, '/');
    ReferencePathChars(r);
    FirstEmpty(r.path);
    segments := all[1..];
    assert forall i :: 0 <= i < |segments| ==> segments[i] == all[i + 1];
  }

  /** References with an absolute path. */
  lemma RootFollows(s: string, base: Url, r: Reference, q: int, f: int)
    requires r.path != "" && r.path[0] == '/' && PlainReference(r) && !IsFile(base.scheme)
    requires s == ReferenceText(r) && TailAt(s, q, f) && q == |r.path| && Slice(s, 0, q) == r.path
    requires Slice(s, q, f) == Marked('?', r.query) && Slice(s, f, |s|) == Marked('#', r.fragment)
    ensures var o := Run(s, None, Some(base), AtReference()); o.Done? && FollowsRfc(base, r, o.u)
  {
    hide Run, RemoveDots, Merge, TailAt, Split, Join, Undot, AllPath, PlainReference, At, Marked, PushSegments;
    var segments := RootSegments(r);
    MarkedPart(r.query);
    RootSecond(r);
    RootSlice(s, q, r.path);
    RootPath(segments);
    assert "/" + Join(segments, '/') == r.path;
    RootReference(s, base, q, f, segments);
  }

  lemma RootSlice(s: string, q: int, path: string)
    requires 0 <= q <= |s| && q == |path| && Slice(s, 0, q) == path && path != "" && path[0] == '/'
    ensures s[0] == '/' && Slice(s, 1, q) == path[1..]
  {}

  lemma RootSecond(r: Reference)
    requires r.path != "" && r.path[0] == '/' && PlainReference(r)
    ensures !IsSlash(At(ReferenceText(r), 1))
  {
    var s := ReferenceText(r);
    hide HasScheme, Undot, Split;
    if |r.path| > 1 { assert s[1] == r.path[1]; }
    else if r.query.Some? { assert s[1] == '?'; }
    else if r.fragment.Some? { assert s[1] == '#'; }
  }

  lemma FirstEmpty(path: string)
    requires path != "" && path[0] == '/'
    ensures var all := Split(path, '/');
            |all| > 1 && all[0] == "" && all[1..] == Split(path[1..], '/') && Join(all[1..], '/') == path[1..]
  {
    JoinSplit(path[1..], '/');
    assert Find(path, '/') == 0;
    assert path[..0] == "";
    assert Split(path, '/') == [""] + Split(path[1..], '/');
  }

  /** Resolving a plain relative reference against a canonical base that is not a file URL gives
      the path and query of section 5.2.2 of RFC 3986. */
  lemma ResolvesByRfc(base: Url, r: Reference)
    requires Canonical(base) && base.relative && !IsFile(base.scheme) && PlainReference(r)
    ensures var o := Construct(ReferenceText(r), Some(base)); o.Done? && FollowsRfc(base, r, o.u)
  {
    var s := ReferenceText(r);
    var q, f := ReferenceLayout(r);
    assert WebBase(base) && !base.invalid && base.relative;
    assert !HasScheme(s);
    hide Run, Parse, Canonical, WebBase, PlainReference, FollowsRfc, HasScheme, TailAt, Slice;
    NoSchemeRead(s, base);
    if r.path == "" { PathlessFollows(s, base, r, q, f); }
    else if r.path[0] == '/' { RootFollows(s, base, r, q, f); }
    else { OwnPathFollows(s, base, r, q, f); }
  }

  /** The authority of a URL, section 3.2. */
  function Authority(u: Url): string { Credentials(u) + HostText(u) }

  /** The target's authority is the base's, as section 5.2.2 wants it, if and only if the base has no user
      information. */
  lemma AuthorityByRfc(base: Url, r: Reference)
    requires Canonical(base) && base.relative && !IsFile(base.scheme) && PlainReference(r)
    ensures var o := Construct(ReferenceText(r), Some(base));
      o.Done? && (Authority(o.u) == Authority(base) <==> base.username == "" && base.password.None?)
  {
    assert !base.invalid;
    hide Construct, Canonical, PlainReference;
    ResolvesByRfc(base, r);
    assert |Authority(base)| == |Credentials(base)| + |HostText(base)|;
  }

  /** A base that the constructor makes, and a reference whose target loses its user information. */
  lemma UserLost()
    ensures var base, r := Head("http").(username := "u", host := "h", path := [""]), Reference("x", None, None);
      var o := Construct(ReferenceText(r), Some(base));
      && Construct("http://u@h/", None) == Done(base)
      && o.Done? && Authority(base) == "u@h" && Authority(o.u) != "u@h"
  {
    var base, r := Head("http").(username := "u", host := "h", path := [""]), Reference("x", None, None);
    UserBase(base);
    PlainX(r);
    hide Construct, Canonical, Href, PlainReference;
    ParseHref(base, "", None);
    AuthorityByRfc(base, r);
  }

  lemma UserBase(base: Url)
    requires base == Head("http").(username := "u", host := "h", path := [""])
    ensures Canonical(base) && Href(base, "") == "http://u@h/" && Authority(base) == "u@h"
  {
    assert Lower("h") == "h" && Lower("") == "" && GoodSegment("") && Join([""], '/') == "";
    hide GoodSegment;
  }

  lemma PlainX(r: Reference)
    requires r == Reference("x", None, None)
    ensures PlainReference(r)
  {
    assert Split("x", '/') == ["x"] && Undot("x") == "x";
    assert ReferenceText(r) == "x";
  }
}
