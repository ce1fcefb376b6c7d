/** What the parser stores of any ASCII text, in each part that it escapes: the path, the query, scheme data and user
    information, by what the stored text spells. */
module UrlExact {
  import opened Wrappers
  import opened Text
  import opened UrlMachine
  import opened UrlInvariant
  import opened UrlScan
  import opened UrlBorrow
  import opened UrlEscape

  // ---------- fragment ----------

  lemma {:induction false} SqueezeKept(t: string)
    ensures Squeeze(t) == Kept(t)
  {
    if t != "" {
      DroppedExact(t[0]);
      SqueezeKept(t[1..]);
    }
  }

  // ---------- query ----------

  /** v is u with a query that begins with its mark and spells t after it. */
  predicate QuerySpelled(v: Url, u: Url, t: string) {
    v == u.(query := v.query) && v.query != "" && v.query[0] == '?' && Spells(v.query[1..], t, true)
  }

  /** The part of t before its first '#', or t. */
  function UpToHash(t: string): string { t[..Find(t, '#')] }

  /** v is u with the fragment that t gives: none, or all after the first '#', tabs and line ends left out. */
  predicate FragmentStored(v: Url, u: Url, t: string) {
    var k := Find(t, '#');
    v == if k == |t| then u else u.(fragment := "#" + Kept(t[k + 1..]))
  }

  lemma FindFrom(t: string, c: char)
    ensures t == "" ==> Find(t, c) == 0
    ensures t != "" ==> Find(t, c) == if t[0] == c then 0 else 1 + Find(t[1..], c)
  {}

  lemma QueryRounds(input: string, ov: Option<State>, base: Option<Url>, m: Config)
    requires m.state == Query && 0 <= m.cursor <= |input| && !m.u.invalid && (ov.None? || ov == Some(Query))
    ensures m.cursor < |input| && (ov.Some? || input[m.cursor] != '#') ==>
      var c := input[m.cursor];
      Run(input, ov, base, m) ==
      Run(input, ov, base, m.(cursor := m.cursor + 1,
                              u := m.u.(query := m.u.query + if IsTabOrNewline(c) then "" else PercentEscapeQuery(c))))
    ensures m.cursor < |input| && ov.None? && input[m.cursor] == '#' ==>
      Run(input, ov, base, m) ==
      Run(input, ov, base, m.(state := Fragment, cursor := m.cursor + 1, u := m.u.(fragment := "#")))
  {
    hide PercentEscapeQuery, IsTabOrNewline;
    if m.cursor < |input| {
      var c := input[m.cursor];
      assert m.u.query + "" == m.u.query;
      if ov.None? && c == '#' {
        Round(input, ov, base, m, m.(state := Fragment, cursor := m.cursor + 1, u := m.u.(fragment := "#")));
      } else {
        Round(input, ov, base, m, m.(cursor := m.cursor + 1,
          u := m.u.(query := m.u.query + if IsTabOrNewline(c) then "" else PercentEscapeQuery(c))));
      }
    }
    hide Run;
  }

  /** One character more of a query. */
  lemma QueryMore(query: string, read: string, c: char)
    requires query != "" && Spells(query[1..], read, true) && c as int < 0x80
    ensures var q := query + if IsTabOrNewline(c) then "" else PercentEscapeQuery(c);
      q != "" && q[0] == query[0] && Spells(q[1..], read + [c], true)
  {
    hide PercentEscapeQuery, Spells, IsTabOrNewline, Dropped, SpellsChar;
    EscapeExact(c);
    DroppedExact(c);
    var d := if IsTabOrNewline(c) then "" else PercentEscapeQuery(c);
    SpellsMore(query[1..], read, d, c, true);
    assert (query + d)[1..] == query[1..] + d;
  }

  /** From the query state on: the query spells the text up to the '#', and the fragment is what follows; under an
      override the '#' is a character of the query. */
  lemma {:induction false} QueryFrom(input: string, ov: Option<State>, base: Option<Url>, m: Config, read: string)
    requires m.state == Query && 0 <= m.cursor <= |input| && !m.u.invalid && (ov.None? || ov == Some(Query))
    requires Ascii(input) && QuerySpelled(m.u, m.u, read)
    ensures var o, rest := Run(input, ov, base, m), input[m.cursor..];
      && o.Done?
      && (ov.Some? ==> QuerySpelled(o.u, m.u, read + rest))
      && (ov.None? ==> exists v :: QuerySpelled(v, m.u, read + UpToHash(rest)) && FragmentStored(o.u, v, rest))
    decreases |input| - m.cursor
  {
    hide Run, Spells, Find, Kept;
    var rest := input[m.cursor..];
    FindFrom(rest, '#');
    if rest == "" {
      EndRound(input, ov, base, m);
      assert read + rest == read && read + UpToHash(rest) == read;
      assert QuerySpelled(m.u, m.u, read + UpToHash(rest)) && FragmentStored(m.u, m.u, rest);
    } else {
      var c := input[m.cursor];
      assert rest[0] == c && rest[1..] == input[m.cursor + 1..];
      QueryRounds(input, ov, base, m);
      if ov.None? && c == '#' {
        var n := m.(state := Fragment, cursor := m.cursor + 1, u := m.u.(fragment := "#"));
        FragmentScan(input, ov, base, n);
        SqueezeKept(rest[1..]);
        assert Slice(input, n.cursor, |input|) == rest[1..] && read + UpToHash(rest) == read;
        assert QuerySpelled(m.u, m.u, read + UpToHash(rest)) && FragmentStored(Run(input, ov, base, m).u, m.u, rest);
      } else {
        var q := m.u.query + if IsTabOrNewline(c) then "" else PercentEscapeQuery(c);
        var n := m.(cursor := m.cursor + 1, u := m.u.(query := q));
        QueryMore(m.u.query, read, c);
        QueryFrom(input, ov, base, n, read + [c]);
        assert read + [c] + rest[1..] == read + rest;
        if ov.None? {
          var v :| QuerySpelled(v, n.u, read + [c] + UpToHash(rest[1..])) &&
                   FragmentStored(Run(input, ov, base, n).u, v, rest[1..]);
          QueryStep(m.u, n.u, v, Run(input, ov, base, n).u, read, rest);
        }
      }
    }
  }

  lemma QueryStep(u: Url, w: Url, v: Url, x: Url, read: string, rest: string)
    requires rest != "" && rest[0] != '#' && w == u.(query := w.query)
    requires QuerySpelled(v, w, read + [rest[0]] + UpToHash(rest[1..])) && FragmentStored(x, v, rest[1..])
    ensures QuerySpelled(v, u, read + UpToHash(rest)) && FragmentStored(x, v, rest)
  {
    hide Spells, Find, Kept;
    FindFrom(rest, '#');
    assert read + [rest[0]] + UpToHash(rest[1..]) == read + UpToHash(rest);
    var k := Find(rest[1..], '#');
    assert k < |rest[1..]| ==> rest[1..][k + 1..] == rest[k + 2..];
  }

  /** The search setter, on any text: one mark, and after it what spells the text without its own mark. */
  lemma SearchExact(u: Url, t: string)
    requires !u.invalid && u.relative && Ascii(t)
    ensures var o := Apply(u, SetSearch(t));
      o.Done? && QuerySpelled(o.u, u, if t != "" && t[0] == '?' then t[1..] else t)
  {
    hide Run;
    var text := Strip(t, '?');
    assert text[0..] == text && "" + text == text;
    assert Spells("?"[1..], "", true);
    QueryFrom(text, Some(Query), None, Start(Some(Query), u.(query := "?")), "");
  }

  // ---------- path ----------

  /** The segments that t spells: what stands between slashes of either kind, up to a '?' or a '#' unless the whole of t
      is a path. */
  function RawSegments(t: string, whole: bool): (r: seq<string>)
    ensures r != []
  {
    if t == "" || (!whole && (t[0] == '?' || t[0] == '#')) then [""]
    else
      var r := RawSegments(t[1..], whole);
      if t[0] == '/' || t[0] == '\\' then [""] + r else [[t[0]] + r[0]] + r[1..]
  }

  /** Each of the strings spells the text at its place. */
  predicate SpellEach(segments: seq<string>, raw: seq<string>) {
    |segments| == |raw| && forall i :: 0 <= i < |raw| ==> Spells(segments[i], raw[i], false)
  }

  function Before(read: string, raw: seq<string>): (r: seq<string>)
    requires raw != []
    ensures r != [] && |r| == |raw|
  {
    [read + raw[0]] + raw[1..]
  }

  /** The text from the first '?' or '#' on. */
  function AfterPathText(t: string): string {
    if t == "" || t[0] == '?' || t[0] == '#' then t else AfterPathText(t[1..])
  }

  /** v has the query and fragment that t begins with: none, or as spelled. */
  ghost predicate TailStored(v: Url, u: Url, t: string) {
    if t == "" || t[0] != '?' then FragmentStored(v, u, t)
    else exists w :: QuerySpelled(w, u, UpToHash(t[1..])) && FragmentStored(v, w, t[1..])
  }

  predicate AtPath(input: string, ov: Option<State>, m: Config) {
    && m.state == RelativePath && 0 <= m.cursor <= |input| && !m.u.invalid
    && (ov.None? || ov == Some(RelativePathStart))
  }

  /** A character of a segment. */
  lemma SegmentOn(input: string, ov: Option<State>, base: Option<Url>, m: Config)
    requires AtPath(input, ov, m) && m.cursor < |input|
    requires var c := input[m.cursor]; c != '/' && c != '\\' && (ov.Some? || (c != '?' && c != '#'))
    ensures var c := input[m.cursor];
      Run(input, ov, base, m) ==
      Run(input, ov, base, m.(cursor := m.cursor + 1,
                              buffer := m.buffer + if IsTabOrNewline(c) then "" else PercentEscape(c)))
  {
    hide PercentEscape, IsTabOrNewline, PushSegment;
    var c := input[m.cursor];
    assert m.buffer + "" == m.buffer;
    Round(input, ov, base, m,
      m.(cursor := m.cursor + 1, buffer := m.buffer + if IsTabOrNewline(c) then "" else PercentEscape(c)));
    hide Run;
  }

  /** A slash of either kind. */
  lemma SegmentCut(input: string, ov: Option<State>, base: Option<Url>, m: Config)
    requires AtPath(input, ov, m) && m.cursor < |input| && (input[m.cursor] == '/' || input[m.cursor] == '\\')
    ensures Run(input, ov, base, m) ==
      Run(input, ov, base, m.(cursor := m.cursor + 1, buffer := "",
                              u := m.u.(path := PushSegment(IsFile(m.u.scheme), m.u.path, m.buffer, true))))
  {
    hide PushSegment;
    Round(input, ov, base, m,
      m.(cursor := m.cursor + 1, buffer := "",
         u := m.u.(path := PushSegment(IsFile(m.u.scheme), m.u.path, m.buffer, true))));
    hide Run;
  }

  /** The point after the end of a path. */
  function PathPassed(m: Config, c: Option<char>): Config {
    var n := m.(cursor := m.cursor + 1, buffer := "",
                u := m.u.(path := PushSegment(IsFile(m.u.scheme), m.u.path, m.buffer, false)));
    if c == Some('?') then n.(state := Query, u := n.u.(query := "?"))
    else if c == Some('#') then n.(state := Fragment, u := n.u.(fragment := "#"))
    else n
  }

  predicate AtPathEnd(input: string, ov: Option<State>, m: Config) {
    AtPath(input, ov, m) &&
    (m.cursor < |input| ==> ov.None? && (input[m.cursor] == '?' || input[m.cursor] == '#'))
  }

  lemma SegmentStops(input: string, ov: Option<State>, base: Option<Url>, m: Config)
    requires AtPathEnd(input, ov, m)
    ensures Run(input, ov, base, m) == Run(input, ov, base, PathPassed(m, At(input, m.cursor)))
  {
    hide PushSegment;
    Round(input, ov, base, m, PathPassed(m, At(input, m.cursor)));
    hide Run;
  }

  lemma PathOver(input: string, ov: Option<State>, base: Option<Url>, n: Config)
    requires n.state == RelativePath && n.cursor == |input| + 1
    ensures Run(input, ov, base, n) == Done(n.u)
  {}

  /** The end of the path: of the input, or before query or fragment. */
  lemma SegmentEnd(input: string, ov: Option<State>, base: Option<Url>, m: Config)
    requires AtPathEnd(input, ov, m) && Ascii(input)
    ensures var o := Run(input, ov, base, m);
      o.Done? && TailStored(o.u, m.u.(path := PushSegment(IsFile(m.u.scheme), m.u.path, m.buffer, false)),
                            input[m.cursor..])
  {
    hide Run, PushSegment, Spells, Find, Kept;
    var u := m.u.(path := PushSegment(IsFile(m.u.scheme), m.u.path, m.buffer, false));
    var rest, n := input[m.cursor..], PathPassed(m, At(input, m.cursor));
    FindFrom(rest, '#');
    SegmentStops(input, ov, base, m);
    if m.cursor == |input| {
      PathOver(input, ov, base, n);
    } else if input[m.cursor] == '#' {
      FragmentScan(input, ov, base, n);
      SqueezeKept(rest[1..]);
      assert Slice(input, n.cursor, |input|) == rest[1..];
    } else {
      QueryTail(input, base, n, u);
      assert input[n.cursor..] == rest[1..];
    }
  }

  lemma QueryTail(input: string, base: Option<Url>, n: Config, u: Url)
    requires n.state == Query && 0 < n.cursor <= |input| && !n.u.invalid && Ascii(input)
    requires n.u == u.(query := "?")
    ensures var o, rest := Run(input, None, base, n), input[n.cursor..];
      o.Done? && exists w :: QuerySpelled(w, u, UpToHash(rest)) && FragmentStored(o.u, w, rest)
  {
    hide Run, Find, Kept;
    assert Spells("?"[1..], "", true);
    QueryFrom(input, None, base, n, "");
    var rest := input[n.cursor..];
    assert "" + UpToHash(rest) == UpToHash(rest);
    var w :| QuerySpelled(w, n.u, UpToHash(rest)) && FragmentStored(Run(input, None, base, n).u, w, rest);
    assert QuerySpelled(w, u, UpToHash(rest));
  }

  lemma SegmentMore(buffer: string, read: string, c: char)
    requires Spells(buffer, read, false) && c as int < 0x80
    ensures Spells(buffer + if IsTabOrNewline(c) then "" else PercentEscape(c), read + [c], false)
  {
    hide PercentEscape, Spells, IsTabOrNewline, Dropped, SpellsChar;
    EscapeExact(c);
    DroppedExact(c);
    SpellsMore(buffer, read, if IsTabOrNewline(c) then "" else PercentEscape(c), c, false);
  }

  /** From a point in the path on: segments that spell those of the text are pushed in turn, and then come query and
      fragment; under the override of the pathname setter the whole text is a path. */
  lemma {:induction false} PathFrom(input: string, ov: Option<State>, base: Option<Url>, m: Config, read: string)
    returns (segments: seq<string>)
    requires AtPath(input, ov, m) && Ascii(input) && Spells(m.buffer, read, false)
    ensures SpellEach(segments, Before(read, RawSegments(input[m.cursor..], ov.Some?)))
    ensures var o := Run(input, ov, base, m);
      o.Done? && TailStored(o.u, m.u.(path := PushSegments(IsFile(m.u.scheme), m.u.path, segments)),
                            if ov.Some? then "" else AfterPathText(input[m.cursor..]))
    decreases |input| - m.cursor
  {
    hide Run, Spells, PushSegments, PushSegment, TailStored, PercentEscape, IsTabOrNewline;
    var rest := input[m.cursor..];
    if rest == "" || (ov.None? && (rest[0] == '?' || rest[0] == '#')) {
      segments := [m.buffer];
      SegmentEnd(input, ov, base, m);
      PushOne(IsFile(m.u.scheme), m.u.path, m.buffer);
      assert read + "" == read && Before(read, RawSegments(rest, ov.Some?)) == [read];
    } else {
      var c := rest[0];
      assert c == input[m.cursor] && rest[1..] == input[m.cursor + 1..];
      if c == '/' || c == '\\' {
        SegmentCut(input, ov, base, m);
        var n := m.(cursor := m.cursor + 1, buffer := "",
                    u := m.u.(path := PushSegment(IsFile(m.u.scheme), m.u.path, m.buffer, true)));
        assert Spells("", "", false) by { SpellsNone(); }
        var more := PathFrom(input, ov, base, n, "");
        segments := [m.buffer] + more;
        PushCons(IsFile(m.u.scheme), m.u.path, m.buffer, more);
        CutEach(m.buffer, read, more, RawSegments(rest[1..], ov.Some?), RawSegments(rest, ov.Some?));
      } else {
        SegmentOn(input, ov, base, m);
        SegmentMore(m.buffer, read, c);
        var n := m.(cursor := m.cursor + 1, buffer := m.buffer + if IsTabOrNewline(c) then "" else PercentEscape(c));
        segments := PathFrom(input, ov, base, n, read + [c]);
        var raw := RawSegments(rest[1..], ov.Some?);
        assert Before(read + [c], raw) == Before(read, RawSegments(rest, ov.Some?)) by {
          assert read + [c] + raw[0] == read + ([c] + raw[0]);
        }
      }
    }
  }

  lemma SpellsNone()
    ensures Spells("", "", false)
  {}

  lemma PushOne(file: bool, path: seq<string>, segment: string)
    ensures PushSegments(file, path, [segment]) == PushSegment(file, path, segment, false)
  {
    hide PushSegment;
  }

  lemma PushCons(file: bool, path: seq<string>, segment: string, rest: seq<string>)
    requires rest != []
    ensures PushSegments(file, path, [segment] + rest) ==
            PushSegments(file, PushSegment(file, path, segment, true), rest)
  {
    hide PushSegment;
    assert ([segment] + rest)[1..] == rest;
  }

  lemma CutEach(buffer: string, read: string, more: seq<string>, raw: seq<string>, all: seq<string>)
    requires Spells(buffer, read, false) && raw != [] && SpellEach(more, Before("", raw)) && all == [""] + raw
    ensures SpellEach([buffer] + more, Before(read, all))
  {
    hide Spells;
    assert "" + raw[0] == raw[0] && read + "" == read;
    assert Before("", raw) == raw && Before(read, all) == [read] + raw;
  }

  /** The pathname setter, on any text: the segments spell those of the text, of which one slash in front is left out,
      and are pushed in turn on an empty path. */
  lemma PathnameExact(u: Url, t: string) returns (segments: seq<string>)
    requires !u.invalid && u.relative && Ascii(t)
    ensures SpellEach(segments, RawSegments(if t != "" && (t[0] == '/' || t[0] == '\\') then t[1..] else t, true))
    ensures Apply(u, SetPathname(t)) == Done(u.(path := PushSegments(IsFile(u.scheme), [], segments)))
  {
    hide Run, PushSegments, Spells;
    var ov := Some(RelativePathStart);
    var m := Start(ov, u.(path := []));
    var n := m.(state := RelativePath, cursor := if t != "" && (t[0] == '/' || t[0] == '\\') then 1 else 0);
    Round(t, ov, None, m, n);
    assert t[0..] == t;
    assert Spells("", "", false) by { SpellsNone(); }
    segments := PathFrom(t, ov, None, n, "");
    var raw := RawSegments(t[n.cursor..], true);
    assert "" + raw[0] == raw[0] && Before("", raw) == raw;
  }

  // ---------- scheme data ----------

  lemma DataRounds(input: string, base: Option<Url>, m: Config)
    requires m.state == SchemeData && 0 <= m.cursor < |input| && !m.u.invalid && input[m.cursor] != '?'
    ensures Run(input, None, base, m) ==
      var c := input[m.cursor];
      Run(input, None, base,
        if c == '#' then m.(state := Fragment, cursor := m.cursor + 1, u := m.u.(fragment := "#"))
        else m.(cursor := m.cursor + 1,
                u := m.u.(schemeData := m.u.schemeData + if IsTabOrNewline(c) then "" else PercentEscape(c))))
  {
    hide PercentEscape, IsTabOrNewline;
    var c := input[m.cursor];
    assert m.u.schemeData + "" == m.u.schemeData;
    Round(input, None, base, m,
      if c == '#' then m.(state := Fragment, cursor := m.cursor + 1, u := m.u.(fragment := "#"))
      else m.(cursor := m.cursor + 1,
              u := m.u.(schemeData := m.u.schemeData + if IsTabOrNewline(c) then "" else PercentEscape(c))));
    hide Run;
  }

  /** v is u with scheme data that spells t. */
  predicate DataSpelled(v: Url, u: Url, t: string) {
    v == u.(schemeData := v.schemeData) && Spells(v.schemeData, t, false)
  }

  /** From the scheme data on, where no '?' comes before the fragment: the data spells the text up to the '#'. */
  lemma {:induction false} DataFrom(input: string, base: Option<Url>, m: Config, read: string)
    requires m.state == SchemeData && 0 <= m.cursor <= |input| && !m.u.invalid && Ascii(input)
    requires '?' !in UpToHash(input[m.cursor..]) && Spells(m.u.schemeData, read, false)
    ensures var o, rest := Run(input, None, base, m), input[m.cursor..];
      o.Done? && exists v :: DataSpelled(v, m.u, read + UpToHash(rest)) && FragmentStored(o.u, v, rest)
    decreases |input| - m.cursor
  {
    hide Run, Spells, Find, Kept, PercentEscape, IsTabOrNewline;
    var rest := input[m.cursor..];
    FindFrom(rest, '#');
    if rest == "" {
      EndRound(input, None, base, m);
      assert read + UpToHash(rest) == read && DataSpelled(m.u, m.u, read) && FragmentStored(m.u, m.u, rest);
    } else {
      var c := input[m.cursor];
      assert rest[0] == c && rest[1..] == input[m.cursor + 1..];
      assert c != '#' ==> UpToHash(rest) == [c] + UpToHash(rest[1..]) && UpToHash(rest)[0] == c;
      DataRounds(input, base, m);
      if c == '#' {
        var n := m.(state := Fragment, cursor := m.cursor + 1, u := m.u.(fragment := "#"));
        FragmentScan(input, None, base, n);
        SqueezeKept(rest[1..]);
        assert Slice(input, n.cursor, |input|) == rest[1..] && read + UpToHash(rest) == read;
        assert DataSpelled(m.u, m.u, read) && FragmentStored(Run(input, None, base, m).u, m.u, rest);
      } else {
        var d := m.u.schemeData + if IsTabOrNewline(c) then "" else PercentEscape(c);
        var n := m.(cursor := m.cursor + 1, u := m.u.(schemeData := d));
        SegmentMore(m.u.schemeData, read, c);
        DataFrom(input, base, n, read + [c]);
        var v :| DataSpelled(v, n.u, read + [c] + UpToHash(rest[1..])) &&
                 FragmentStored(Run(input, None, base, n).u, v, rest[1..]);
        DataStep(m.u, n.u, v, Run(input, None, base, n).u, read, rest);
      }
    }
  }

  lemma DataStep(u: Url, w: Url, v: Url, x: Url, read: string, rest: string)
    requires rest != "" && rest[0] != '#' && w == u.(schemeData := w.schemeData)
    requires DataSpelled(v, w, read + [rest[0]] + UpToHash(rest[1..])) && FragmentStored(x, v, rest[1..])
    ensures DataSpelled(v, u, read + UpToHash(rest)) && FragmentStored(x, v, rest)
  {
    hide Spells, Find, Kept;
    FindFrom(rest, '#');
    assert read + [rest[0]] + UpToHash(rest[1..]) == read + UpToHash(rest);
    var k := Find(rest[1..], '#');
    assert k < |rest[1..]| ==> rest[1..][k + 1..] == rest[k + 2..];
  }

  // ---------- user information ----------

  /** The text before the first ':' is the name, what follows it the password. */
  predicate UserSpelled(name: string, password: Option<string>, t: string) {
    var k := Find(t, ':');
    && Spells(name, t[..k], false)
    && if k == |t| then password.None? else password.Some? && Spells(password.value, t[k + 1..], false)
  }

  lemma FindLast(t: string, c: char, sep: char)
    ensures Find(t + [c], sep) == if Find(t, sep) < |t| then Find(t, sep) else if c == sep then |t| else |t| + 1
    decreases |t|
  {
    if t != "" {
      assert (t + [c])[1..] == t[1..] + [c];
      FindLast(t[1..], c, sep);
    } else {
      assert t + [c] == [c] && [c][1..] == "";
    }
  }

  /** The user information that the code makes of t spells it. */
  lemma {:induction false} UserExact(t: string)
    requires Ascii(t)
    ensures var (n, p) := UserInfo("", None, t); UserSpelled(n, p, t)
    decreases |t|
  {
    hide Spells, PercentEscape, IsTabOrNewline;
    if t == "" {
      SpellsNone();
    } else {
      var most, c := t[..|t| - 1], t[|t| - 1];
      assert t == most + [c];
      UserExact(most);
      FindLast(most, c, ':');
      UserMore(most, c);
    }
  }

  lemma UserMore(t: string, c: char)
    requires c as int < 0x80
    requires var (n, p) := UserInfo("", None, t); UserSpelled(n, p, t)
    requires Find(t + [c], ':') == if Find(t, ':') < |t| then Find(t, ':') else if c == ':' then |t| else |t| + 1
    ensures var (n, p) := UserInfo("", None, t); var (m, q) := UserInfoChar(n, p, c); UserSpelled(m, q, t + [c])
  {
    hide Spells, PercentEscape, IsTabOrNewline, Find;
    var (n, p) := UserInfo("", None, t);
    var k := Find(t, ':');
    DroppedExact(c);
    if k < |t| {
      assert (t + [c])[..k] == t[..k] && (t + [c])[k + 1..] == t[k + 1..] + [c];
      assert p.value + "" == p.value;
      SegmentMore(p.value, t[k + 1..], c);
    } else if c == ':' {
      assert (t + [c])[..k] == t[..k] && (t + [c])[k + 1..] == "";
      SpellsNone();
    } else {
      assert t[..k] == t && (t + [c])[..k + 1] == t + [c] && n + "" == n;
      SegmentMore(n, t, c);
    }
  }

  // ---------- the segments that are pushed ----------

  /** The segments that the path state pushes spell those of the text. */
  lemma {:induction false} SegmentsSpell(s: string, buffer: string, read: string)
    requires Ascii(s) && Spells(buffer, read, false)
    ensures SpellEach(Segments(s, buffer), Before(read, RawSegments(s, false)))
    decreases |s|
  {
    hide Spells, PercentEscape, Dropped;
    SegmentsOf(s, buffer);
    if EndsPath(At(s, 0)) {
      assert read + "" == read;
    } else if IsSlash(At(s, 0)) {
      SpellsNone();
      SegmentsSpell(s[1..], "", "");
      CutEach(buffer, read, Segments(s[1..], ""), RawSegments(s[1..], false), RawSegments(s, false));
    } else {
      SegmentMore(buffer, read, s[0]);
      assert buffer + "" == buffer;
      SegmentsSpell(s[1..], buffer + if IsTabOrNewline(s[0]) then "" else PercentEscape(s[0]), read + [s[0]]);
      var raw := RawSegments(s[1..], false);
      assert read + [s[0]] + raw[0] == read + ([s[0]] + raw[0]);
    }
  }

  /** Decoding each of them gives what the segment of the text decodes to; the segment itself where it has no '%'. */
  lemma SegmentsDecode(s: string, i: nat)
    requires Ascii(s) && i < |RawSegments(s, false)|
    ensures i < |Segments(s, "")| && Decode(Segments(s, "")[i]) == Decode(Kept(RawSegments(s, false)[i]))
    ensures '%' !in RawSegments(s, false)[i] ==> Decode(Segments(s, "")[i]) == Kept(RawSegments(s, false)[i])
  {
    hide Spells, Decode, Kept, Segments;
    SpellsNone();
    SegmentsSpell(s, "", "");
    var raw := RawSegments(s, false);
    assert "" + raw[0] == raw[0] && Before("", raw) == raw;
    DecodeSpelled(Segments(s, "")[i], raw[i], false);
  }

  /** The spellings of a dot segment. */
  const ONE_DOT := {".", "%2e", "%2E"}
  const TWO_DOTS := {"..", ".%2e", ".%2E", "%2e.", "%2E.", "%2e%2e", "%2e%2E", "%2E%2e", "%2E%2E"}

  lemma LowerDots(s: string)
    ensures Lower(s) == "%2e" <==> s == "%2e" || s == "%2E"
    ensures Lower(s) == ".%2e" <==> s == ".%2e" || s == ".%2E"
    ensures Lower(s) == "%2e." <==> s == "%2e." || s == "%2E."
    ensures Lower(s) == "%2e%2e" <==> s in {"%2e%2e", "%2e%2E", "%2E%2e", "%2E%2E"}
  {
    forall c: char
      ensures (LowerChar(c) == 'e' <==> c == 'e' || c == 'E') && (LowerChar(c) == '%' <==> c == '%')
      ensures (LowerChar(c) == '2' <==> c == '2') && (LowerChar(c) == '.' <==> c == '.')
    {
    }
    hide LowerChar;
    if |s| == 3 { assert s == [s[0], s[1], s[2]]; }
    if |s| == 4 { assert s == [s[0], s[1], s[2], s[3]]; }
    if |s| == 6 { assert s == [s[0], s[1], s[2], s[3], s[4], s[5]]; }
  }

  /** The end of a segment: one dot adds nothing, two take the last segment away, an empty one standing in their place
      at the end of the path; another one is added, on an empty path of a file URL with the bar of a drive turned into a
      colon. */
  lemma PushExact(file: bool, path: seq<string>, segment: string, more: bool)
    ensures PushSegment(file, path, segment, more) ==
      if segment in ONE_DOT then (if more then path else path + [""])
      else if segment in TWO_DOTS then
        var most := if path == [] then [] else path[..|path| - 1];
        if more then most else most + [""]
      else if file && path == [] && |segment| == 2 && Alpha(segment[0]) && segment[1] == '|' then [[segment[0], ':']]
      else path + [segment]
  {
    LowerDots(segment);
    assert path + [] == path;
  }

  // ---------- tables ----------

  /** t begins with a letter and a colon or bar, and then ends or goes on with a delimiter. */
  predicate LoneDrive(t: string) {
    && |t| >= 2 && Alpha(t[0]) && (t[1] == ':' || t[1] == '|')
    && (|t| == 2 || t[2] == '/' || t[2] == '\\' || t[2] == '?' || t[2] == '#')
  }

  /** Where a file URL begins with a drive, and which hosts are drives. */
  lemma DriveExact(s: string, k: nat)
    requires k <= |s|
    ensures StartsWithDrive(At(s, k), At(s, k + 1), At(s, k + 2)) <==> LoneDrive(s[k..])
    ensures IsDrive(s) <==> |s| == 2 && LoneDrive(s)
    ensures IsPipeDrive(s) <==> |s| == 2 && LoneDrive(s) && s[1] == '|'
  {}

  /** The characters and their classes. */
  lemma ClassesExact(c: char)
    ensures IsDelimiter(c) <==> c in {'/', '\\', '?', '#'}
    ensures IsTabOrNewline(c) <==> c in {'\t', '\n', '\r'}
    ensures IsTrimmed(c) <==> c in {' ', '\t', '\r', '\n', '\U{C}'}
    ensures Digit(c) <==> 48 <= c as int <= 57
    ensures Alpha(c) <==> 65 <= c as int <= 90 || 97 <= c as int <= 122
    ensures SchemeChar(c) <==> Alpha(c) || Digit(c) || c in {'+', '-', '.'}
    ensures LowerChar(c) as int == if 65 <= c as int <= 90 then c as int + 32 else c as int
  {}
}
