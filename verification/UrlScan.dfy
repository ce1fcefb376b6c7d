/** What a state of the parser does to a whole stretch of input: each lemma replaces the rounds
    spent in one state by their joint effect. */
module UrlScan {
  import opened Wrappers
  import opened Text
  import opened UrlMachine
  import opened UrlInvariant

  /** input from i up to j. */
  function Slice(input: string, i: int, j: int): string {
    if 0 <= i <= j <= |input| then input[i..j] else ""
  }

  lemma SliceNone(input: string, i: int, b: string)
    ensures Slice(input, i, i) == "" && b + Slice(input, i, i) == b
  {}

  lemma SliceSplit(input: string, i: int, j: int, b: string)
    requires 0 <= i < j <= |input|
    ensures Slice(input, i, j) == [input[i]] + Slice(input, i + 1, j)
    ensures b + Slice(input, i, j) == b + [input[i]] + Slice(input, i + 1, j)
  {}

  /** One round that goes on. */
  lemma Round(input: string, ov: Option<State>, base: Option<Url>, m: Config, n: Config)
    requires InLoop(input, m) && Step(input, ov, base, m) == Next(n)
    ensures Run(input, ov, base, m) == Run(input, ov, base, n)
  {
    hide Step;
  }

  /** One round that leaves the loop. */
  lemma BreakRound(input: string, ov: Option<State>, base: Option<Url>, m: Config, u: Url)
    requires InLoop(input, m) && Step(input, ov, base, m) == Break(u)
    ensures Run(input, ov, base, m) == Done(u)
  {
    hide Step;
  }

  lemma SchemeRound(input: string, ov: Option<State>, base: Option<Url>, m: Config)
    requires m.state == Scheme && 0 <= m.cursor < |input| && !m.u.invalid && SchemeChar(input[m.cursor])
    ensures Run(input, ov, base, m) ==
            Run(input, ov, base, m.(cursor := m.cursor + 1, buffer := m.buffer + [LowerChar(input[m.cursor])]))
  {
    Round(input, ov, base, m, m.(cursor := m.cursor + 1, buffer := m.buffer + [LowerChar(input[m.cursor])]));
  }

  lemma {:induction false} SchemeScan(input: string, ov: Option<State>, base: Option<Url>, m: Config, j: int)
    requires m.state == Scheme && 0 <= m.cursor <= j <= |input| && !m.u.invalid
    requires forall i :: m.cursor <= i < j ==> SchemeChar(input[i])
    ensures Run(input, ov, base, m) ==
            Run(input, ov, base, m.(cursor := j, buffer := m.buffer + Lower(Slice(input, m.cursor, j))))
    decreases j - m.cursor
  {
    hide Run;
    if m.cursor < j {
      var n := m.(cursor := m.cursor + 1, buffer := m.buffer + [LowerChar(input[m.cursor])]);
      SchemeRound(input, ov, base, m);
      SchemeScan(input, ov, base, n, j);
      assert m.buffer + Lower(Slice(input, m.cursor, j)) == n.buffer + Lower(Slice(input, n.cursor, j));
    } else {
      assert m.buffer + Lower(Slice(input, m.cursor, j)) == m.buffer;
    }
  }

  /** The first character that cannot be in a scheme. */
  function SchemeEnd(input: string): (k: nat)
    ensures k <= |input| && (forall i :: 0 <= i < k ==> SchemeChar(input[i])) && (k < |input| ==> !SchemeChar(input[k]))
  {
    if input != "" && SchemeChar(input[0]) then 1 + SchemeEnd(input[1..]) else 0
  }

  /** The text starts with a scheme and its colon. */
  predicate HasScheme(input: string) {
    input != "" && Alpha(input[0]) && SchemeEnd(input) < |input| && input[SchemeEnd(input)] == ':'
  }

  lemma DataRound(input: string, ov: Option<State>, base: Option<Url>, m: Config)
    requires m.state == SchemeData && 0 <= m.cursor < |input| && !m.u.invalid && Plain(input[m.cursor])
    ensures Run(input, ov, base, m) ==
            Run(input, ov, base,
                m.(cursor := m.cursor + 1, u := m.u.(schemeData := m.u.schemeData + [input[m.cursor]])))
  {
    Round(input, ov, base, m, m.(cursor := m.cursor + 1, u := m.u.(schemeData := m.u.schemeData + [input[m.cursor]])));
  }

  lemma {:induction false} DataScan(input: string, ov: Option<State>, base: Option<Url>, m: Config, j: int)
    requires m.state == SchemeData && 0 <= m.cursor <= j <= |input| && !m.u.invalid
    requires forall i :: m.cursor <= i < j ==> Plain(input[i])
    ensures Run(input, ov, base, m) ==
            Run(input, ov, base,
              m.(cursor := j, u := m.u.(schemeData := m.u.schemeData + Slice(input, m.cursor, j))))
    decreases j - m.cursor
  {
    hide Run;
    if m.cursor < j {
      var n := m.(cursor := m.cursor + 1, u := m.u.(schemeData := m.u.schemeData + [input[m.cursor]]));
      DataRound(input, ov, base, m);
      DataScan(input, ov, base, n, j);
      SliceSplit(input, m.cursor, j, m.u.schemeData);
    } else {
      assert m.u.schemeData + Slice(input, m.cursor, j) == m.u.schemeData;
    }
  }

  // ---------- host and port ----------

  /** seenBracket once s has been read. */
  function OpenBracket(s: string): bool {
    if s == "" then false
    else if s[|s| - 1] == '[' then true
    else if s[|s| - 1] == ']' then false
    else OpenBracket(s[..|s| - 1])
  }

  /** Every colon of s is inside a bracket. */
  predicate ColonsBracketed(s: string) {
    forall i :: 0 <= i < |s| && s[i] == ':' ==> OpenBracket(s[..i])
  }

  lemma OpenBracketPush(b: string, c: char)
    ensures OpenBracket(b + [c]) == if c == '[' then true else if c == ']' then false else OpenBracket(b)
  {
    assert (b + [c])[..|b|] == b;
  }

  lemma HostStepOn(input: string, ov: Option<State>, base: Option<Url>, m: Config)
    requires m.state == Host || m.state == Hostname
    requires 0 <= m.cursor < |input| && HostChar(input[m.cursor]) && (input[m.cursor] == ':' ==> m.seenBracket)
    ensures var c := input[m.cursor];
      Step(input, ov, base, m) ==
      Next(m.(cursor := m.cursor + 1, buffer := m.buffer + [c],
              seenBracket := if c == '[' then true else if c == ']' then false else m.seenBracket))
  {
    hide WithHost;
  }

  lemma HostSplit(input: string, i: int, j: int, b: string)
    requires 0 <= i < j <= |input| && ColonsBracketed(b + Slice(input, i, j))
    ensures b + Slice(input, i, j) == b + [input[i]] + Slice(input, i + 1, j)
    ensures input[i] == ':' ==> OpenBracket(b)
  {
    hide OpenBracket;
    var t := b + Slice(input, i, j);
    SliceSplit(input, i, j, b);
    assert t[|b|] == input[i] && t[..|b|] == b;
  }

  lemma HostRound(input: string, ov: Option<State>, base: Option<Url>, m: Config, n: Config)
    requires m.state == Host || m.state == Hostname
    requires 0 <= m.cursor < |input| && !m.u.invalid && HostChar(input[m.cursor])
    requires m.seenBracket == OpenBracket(m.buffer) && (input[m.cursor] == ':' ==> m.seenBracket)
    requires n ==
      m.(cursor := m.cursor + 1, buffer := m.buffer + [input[m.cursor]], seenBracket := OpenBracket(n.buffer))
    ensures Run(input, ov, base, m) == Run(input, ov, base, n)
  {
    OpenBracketPush(m.buffer, input[m.cursor]);
    HostStepOn(input, ov, base, m);
    hide Run, Step, OpenBracket, HostChar;
    Round(input, ov, base, m, n);
  }

  lemma {:induction false} HostScan(input: string, ov: Option<State>, base: Option<Url>, m: Config, j: int)
    requires m.state == Host || m.state == Hostname
    requires 0 <= m.cursor <= j <= |input| && !m.u.invalid
    requires m.seenBracket == OpenBracket(m.buffer)
    requires forall i :: m.cursor <= i < j ==> HostChar(input[i])
    requires ColonsBracketed(m.buffer + Slice(input, m.cursor, j))
    ensures Run(input, ov, base, m) ==
            var b := m.buffer + Slice(input, m.cursor, j);
            Run(input, ov, base, m.(cursor := j, buffer := b, seenBracket := OpenBracket(b)))
    decreases j - m.cursor
  {
    hide Run, OpenBracket, ColonsBracketed, HostChar, Slice;
    if m.cursor < j {
      HostSplit(input, m.cursor, j, m.buffer);
      var b := m.buffer + [input[m.cursor]];
      var n := m.(cursor := m.cursor + 1, buffer := b, seenBracket := OpenBracket(b));
      HostRound(input, ov, base, m, n);
      HostScan(input, ov, base, n, j);
    } else {
      SliceNone(input, j, m.buffer);
    }
  }

  lemma PortRound(input: string, ov: Option<State>, base: Option<Url>, m: Config)
    requires m.state == Port && 0 <= m.cursor < |input| && !m.u.invalid && Digit(input[m.cursor])
    ensures Run(input, ov, base, m) ==
            Run(input, ov, base, m.(cursor := m.cursor + 1, buffer := m.buffer + [input[m.cursor]]))
  {
    Round(input, ov, base, m, m.(cursor := m.cursor + 1, buffer := m.buffer + [input[m.cursor]]));
  }

  lemma {:induction false} PortScan(input: string, ov: Option<State>, base: Option<Url>, m: Config, j: int)
    requires m.state == Port && 0 <= m.cursor <= j <= |input| && !m.u.invalid
    requires forall i :: m.cursor <= i < j ==> Digit(input[i])
    ensures Run(input, ov, base, m) ==
            Run(input, ov, base, m.(cursor := j, buffer := m.buffer + Slice(input, m.cursor, j)))
    decreases j - m.cursor
  {
    hide Run;
    if m.cursor < j {
      var n := m.(cursor := m.cursor + 1, buffer := m.buffer + [input[m.cursor]]);
      PortRound(input, ov, base, m);
      SliceSplit(input, m.cursor, j, m.buffer);
      PortScan(input, ov, base, n, j);
    } else {
      assert m.buffer + Slice(input, m.cursor, j) == m.buffer;
    }
  }

  // ---------- path ----------

  lemma SegmentRound(input: string, ov: Option<State>, base: Option<Url>, m: Config)
    requires m.state == RelativePath && 0 <= m.cursor < |input| && !m.u.invalid && PathChar(input[m.cursor])
    ensures Run(input, ov, base, m) ==
            Run(input, ov, base, m.(cursor := m.cursor + 1, buffer := m.buffer + [input[m.cursor]]))
  {
    Round(input, ov, base, m, m.(cursor := m.cursor + 1, buffer := m.buffer + [input[m.cursor]]));
  }

  lemma {:induction false} SegmentScan(input: string, ov: Option<State>, base: Option<Url>, m: Config, j: int)
    requires m.state == RelativePath && 0 <= m.cursor <= j <= |input| && !m.u.invalid
    requires forall i :: m.cursor <= i < j ==> PathChar(input[i])
    ensures Run(input, ov, base, m) ==
            Run(input, ov, base, m.(cursor := j, buffer := m.buffer + Slice(input, m.cursor, j)))
    decreases j - m.cursor
  {
    hide Run;
    if m.cursor < j {
      var n := m.(cursor := m.cursor + 1, buffer := m.buffer + [input[m.cursor]]);
      SegmentRound(input, ov, base, m);
      SliceSplit(input, m.cursor, j, m.buffer);
      SegmentScan(input, ov, base, n, j);
    } else {
      assert m.buffer + Slice(input, m.cursor, j) == m.buffer;
    }
  }

  lemma PathStartRound(input: string, ov: Option<State>, base: Option<Url>, m: Config)
    requires m.state == RelativePathStart && 0 <= m.cursor < |input| && input[m.cursor] == '/' && !m.u.invalid
    ensures Run(input, ov, base, m) ==
            Run(input, ov, base, m.(state := RelativePath, cursor := m.cursor + 1))
  {
    Round(input, ov, base, m, m.(state := RelativePath, cursor := m.cursor + 1));
  }

  /** The segments of a whole path, applied in turn; only the last is not ended by a slash. */
  function PushSegments(file: bool, path: seq<string>, segments: seq<string>): seq<string>
    decreases |segments|
  {
    if segments == [] then path
    else PushSegments(file, PushSegment(file, path, segments[0], |segments| > 1), segments[1..])
  }

  lemma PushFirst(file: bool, path: seq<string>, segments: seq<string>)
    requires segments != []
    ensures PushSegments(file, path, segments) ==
            PushSegments(file, PushSegment(file, path, segments[0], |segments| > 1), segments[1..])
  {
    hide PushSegment;
  }

  lemma PushGood(file: bool, path: seq<string>, segment: string, more: bool)
    requires GoodSegment(segment) && (file && path == [] ==> !IsPipeDrive(segment))
    ensures PushSegment(file, path, segment, more) == path + [segment]
  {
    UndotDots(segment);
    hide Undot, AllPath;
  }

  /** Where the path ends: at the end of input or, without an override, at '?' or '#'. */
  predicate PathEnds(ov: Option<State>, c: Option<char>) {
    c.None? || (ov.None? && (c == Some('?') || c == Some('#')))
  }

  /** The machine after the path u.path has been completed by the character c. */
  function AfterPath(m: Config, cursor: int, c: Option<char>, u: Url): Config {
    if c == Some('?') then m.(state := Query, cursor := cursor, buffer := "", u := u.(query := "?"))
    else if c == Some('#') then m.(state := Fragment, cursor := cursor, buffer := "", u := u.(fragment := "#"))
    else m.(cursor := cursor, buffer := "", u := u)
  }

  lemma LastSegmentRound(input: string, ov: Option<State>, base: Option<Url>, m: Config)
    requires m.state == RelativePath && 0 <= m.cursor <= |input| && !m.u.invalid
    requires PathEnds(ov, At(input, m.cursor))
    ensures Run(input, ov, base, m) ==
            var u := m.u.(path := PushSegment(IsFile(m.u.scheme), m.u.path, m.buffer, false));
            Run(input, ov, base, AfterPath(m, m.cursor + 1, At(input, m.cursor), u))
  {
    hide PushSegment;
    var u := m.u.(path := PushSegment(IsFile(m.u.scheme), m.u.path, m.buffer, false));
    Round(input, ov, base, m, AfterPath(m, m.cursor + 1, At(input, m.cursor), u));
  }

  lemma SlashRound(input: string, ov: Option<State>, base: Option<Url>, m: Config, n: Config)
    requires m.state == RelativePath && !m.u.invalid && 0 <= m.cursor < |input| && input[m.cursor] == '/'
    requires n == m.(cursor := m.cursor + 1, buffer := "",
                     u := m.u.(path := PushSegment(IsFile(m.u.scheme), m.u.path, m.buffer, true)))
    ensures Run(input, ov, base, m) == Run(input, ov, base, n)
  {
    hide PushSegment;
    Round(input, ov, base, m, n);
  }

  lemma SliceHead(input: string, i: int, j: int, head: string, rest: string)
    requires 0 <= i <= j <= |input| && Slice(input, i, j) == head + "/" + rest
    ensures var k := i + |head|;
      k < j && Slice(input, i, k) == head && input[k] == '/' && Slice(input, k + 1, j) == rest
  {
    var k, s := i + |head|, Slice(input, i, j);
    assert s[..|head|] == head && s[|head|] == '/' && s[|head| + 1..] == rest;
    assert Slice(input, i, k) == s[..|head|];
    assert Slice(input, k + 1, j) == s[|head| + 1..];
  }

  lemma SliceLength(input: string, i: int, j: int)
    requires 0 <= i <= j <= |input|
    ensures |Slice(input, i, j)| == j - i
  {}

  lemma JoinFirst(segments: seq<string>)
    requires segments != []
    ensures Join(segments, '/') ==
            if |segments| == 1 then segments[0] else segments[0] + "/" + Join(segments[1..], '/')
  {}

  lemma SliceChars(input: string, i: int, s: string)
    requires 0 <= i && i + |s| <= |input| && Slice(input, i, i + |s|) == s && AllPath(s)
    ensures forall p :: i <= p < i + |s| ==> PathChar(input[p])
  {
    forall p | i <= p < i + |s| ensures PathChar(input[p]) { assert s[p - i] == input[p]; }
  }

  lemma FirstSegment(input: string, i: int, j: int, segments: seq<string>)
    requires 0 <= i <= j <= |input| && segments != []
    requires Slice(input, i, j) == Join(segments, '/')
    ensures var k := i + |segments[0]|;
            && k <= j && Slice(input, i, k) == segments[0]
            && (AllPath(segments[0]) ==> forall p :: i <= p < k ==> PathChar(input[p]))
            && (|segments| == 1 ==> k == j)
            && (|segments| > 1 ==> k < j && input[k] == '/' && Slice(input, k + 1, j) == Join(segments[1..], '/'))
  {
    hide AllPath, PathChar, Slice, Join;
    SliceLength(input, i, j);
    JoinFirst(segments);
    if |segments| > 1 {
      SliceHead(input, i, j, segments[0], Join(segments[1..], '/'));
    }
    if AllPath(segments[0]) { SliceChars(input, i, segments[0]); }
  }

  /** The rounds of a segment that a slash ends. */
  lemma MoreRounds(input: string, ov: Option<State>, base: Option<Url>, m: Config, n: Config, segment: string)
    requires m.state == RelativePath && m.buffer == "" && 0 <= m.cursor && !m.u.invalid
    requires m.cursor + |segment| < |input| && input[m.cursor + |segment|] == '/'
    requires Slice(input, m.cursor, m.cursor + |segment|) == segment
    requires forall p :: m.cursor <= p < m.cursor + |segment| ==> PathChar(input[p])
    requires n == m.(cursor := m.cursor + |segment| + 1,
                     u := m.u.(path := PushSegment(IsFile(m.u.scheme), m.u.path, segment, true)))
    ensures Run(input, ov, base, m) == Run(input, ov, base, n)
  {
    hide Run, PushSegment, Slice, PathChar;
    SegmentScan(input, ov, base, m, m.cursor + |segment|);
    assert m.buffer + segment == segment;
    SlashRound(input, ov, base, m.(cursor := m.cursor + |segment|, buffer := segment), n);
  }

  /** The rounds of the last segment. */
  lemma LastRounds(input: string, ov: Option<State>, base: Option<Url>, m: Config, j: int)
    requires m.state == RelativePath && m.buffer == "" && 0 <= m.cursor <= j <= |input| && !m.u.invalid
    requires forall p :: m.cursor <= p < j ==> PathChar(input[p])
    requires PathEnds(ov, At(input, j))
    ensures Run(input, ov, base, m) ==
            var u := m.u.(path := PushSegment(IsFile(m.u.scheme), m.u.path, Slice(input, m.cursor, j), false));
            Run(input, ov, base, AfterPath(m, j + 1, At(input, j), u))
  {
    hide Run, PushSegment, Slice, PathChar, PathEnds;
    SegmentScan(input, ov, base, m, j);
    assert m.buffer + Slice(input, m.cursor, j) == Slice(input, m.cursor, j);
    LastSegmentRound(input, ov, base, m.(cursor := j, buffer := Slice(input, m.cursor, j)));
  }

  /** In the path state, the input from the cursor to j is the join of the segments. */
  predicate PathAhead(input: string, ov: Option<State>, m: Config, j: int, segments: seq<string>) {
    && m.state == RelativePath && m.buffer == "" && !m.u.invalid
    && 0 <= m.cursor <= j <= |input| && PathEnds(ov, At(input, j))
    && segments != [] && (forall i :: 0 <= i < |segments| ==> AllPath(segments[i]))
    && Slice(input, m.cursor, j) == Join(segments, '/')
  }

  function PathStep(m: Config, segments: seq<string>): Config requires segments != [] {
    m.(cursor := m.cursor + |segments[0]| + 1,
       u := m.u.(path := PushSegment(IsFile(m.u.scheme), m.u.path, segments[0], true)))
  }

  lemma PathStepAhead(input: string, ov: Option<State>, m: Config, j: int, segments: seq<string>)
    requires PathAhead(input, ov, m, j, segments) && |segments| > 1
    ensures var k := m.cursor + |segments[0]|;
      && m.state == RelativePath && m.buffer == "" && 0 <= m.cursor && !m.u.invalid
      && k < |input| && input[k] == '/' && Slice(input, m.cursor, k) == segments[0]
      && (forall p :: m.cursor <= p < k ==> PathChar(input[p]))
    ensures PathAhead(input, ov, PathStep(m, segments), j, segments[1..])
  {
    hide AllPath, PushSegment, PathChar, Slice, Join, PathEnds;
    FirstSegment(input, m.cursor, j, segments);
    assert AllPath(segments[0]);
  }

  lemma PathMore(input: string, ov: Option<State>, base: Option<Url>, m: Config, j: int, segments: seq<string>)
    requires PathAhead(input, ov, m, j, segments) && |segments| > 1
    ensures Run(input, ov, base, m) == Run(input, ov, base, PathStep(m, segments))
    ensures PathAhead(input, ov, PathStep(m, segments), j, segments[1..])
  {
    hide Run, PathAhead, PushSegment, PathChar, Slice, At;
    PathStepAhead(input, ov, m, j, segments);
    MoreRounds(input, ov, base, m, PathStep(m, segments), segments[0]);
  }

  lemma PathLast(input: string, ov: Option<State>, base: Option<Url>, m: Config, j: int, segments: seq<string>)
    requires PathAhead(input, ov, m, j, segments) && |segments| == 1
    ensures Run(input, ov, base, m) ==
            var u := m.u.(path := PushSegments(IsFile(m.u.scheme), m.u.path, segments));
            Run(input, ov, base, AfterPath(m, j + 1, At(input, j), u))
  {
    FirstSegment(input, m.cursor, j, segments);
    assert AllPath(segments[0]);
    hide Run, AllPath, PushSegment, PathChar;
    LastRounds(input, ov, base, m, j);
    assert PushSegments(IsFile(m.u.scheme), m.u.path, segments) ==
           PushSegment(IsFile(m.u.scheme), m.u.path, segments[0], false);
  }

  lemma {:induction false} PathScan(
    input: string, ov: Option<State>, base: Option<Url>, m: Config, j: int, segments: seq<string>)
    requires PathAhead(input, ov, m, j, segments)
    ensures Run(input, ov, base, m) ==
            var u := m.u.(path := PushSegments(IsFile(m.u.scheme), m.u.path, segments));
            Run(input, ov, base, AfterPath(m, j + 1, At(input, j), u))
    decreases |segments|
  {
    if |segments| == 1 {
      hide Run, PushSegments;
      PathLast(input, ov, base, m, j, segments);
    } else {
      assert segments != [];
      hide Run, PathAhead, PushSegment;
      PathMore(input, ov, base, m, j, segments);
      PathScan(input, ov, base, PathStep(m, segments), j, segments[1..]);
    }
  }

  // ---------- query and fragment ----------

  lemma QueryRound(input: string, ov: Option<State>, base: Option<Url>, m: Config)
    requires m.state == Query && 0 <= m.cursor < |input| && !m.u.invalid && QueryPlain(input[m.cursor])
    ensures Run(input, ov, base, m) ==
            Run(input, ov, base, m.(cursor := m.cursor + 1, u := m.u.(query := m.u.query + [input[m.cursor]])))
  {
    Round(input, ov, base, m, m.(cursor := m.cursor + 1, u := m.u.(query := m.u.query + [input[m.cursor]])));
  }

  lemma {:induction false} QueryScan(input: string, ov: Option<State>, base: Option<Url>, m: Config, j: int)
    requires m.state == Query && 0 <= m.cursor <= j <= |input| && !m.u.invalid
    requires forall i :: m.cursor <= i < j ==> QueryPlain(input[i])
    ensures Run(input, ov, base, m) ==
            Run(input, ov, base, m.(cursor := j, u := m.u.(query := m.u.query + Slice(input, m.cursor, j))))
    decreases j - m.cursor
  {
    hide Run;
    if m.cursor < j {
      var n := m.(cursor := m.cursor + 1, u := m.u.(query := m.u.query + [input[m.cursor]]));
      QueryRound(input, ov, base, m);
      QueryScan(input, ov, base, n, j);
      SliceSplit(input, m.cursor, j, m.u.query);
    } else {
      assert m.u.query + Slice(input, m.cursor, j) == m.u.query;
    }
  }

  /** s without tabs and line ends. */
  function Squeeze(s: string): string {
    if s == "" then "" else (if IsTabOrNewline(s[0]) then "" else [s[0]]) + Squeeze(s[1..])
  }

  lemma SqueezeSame(s: string)
    requires forall i :: 0 <= i < |s| ==> !IsTabOrNewline(s[i])
    ensures Squeeze(s) == s
  {}

  lemma SqueezeSplit(input: string, i: int, f: string)
    requires 0 <= i <= |input|
    ensures f + Squeeze(Slice(input, i, |input|)) ==
            if i == |input| then f
            else f + (if IsTabOrNewline(input[i]) then "" else [input[i]]) + Squeeze(Slice(input, i + 1, |input|))
  {
    var s := Slice(input, i, |input|);
    if i < |input| { assert s[0] == input[i] && s[1..] == Slice(input, i + 1, |input|); }
  }

  lemma FragmentRound(input: string, ov: Option<State>, base: Option<Url>, m: Config, t: string)
    requires m.state == Fragment && 0 <= m.cursor < |input| && !m.u.invalid
    requires t == if IsTabOrNewline(input[m.cursor]) then "" else [input[m.cursor]]
    ensures Run(input, ov, base, m) ==
            Run(input, ov, base, m.(cursor := m.cursor + 1, u := m.u.(fragment := m.u.fragment + t)))
  {
    assert m.u.fragment + "" == m.u.fragment;
    Round(input, ov, base, m, m.(cursor := m.cursor + 1, u := m.u.(fragment := m.u.fragment + t)));
  }

  /** The fragment state runs to the end of input. */
  lemma {:induction false} FragmentScan(input: string, ov: Option<State>, base: Option<Url>, m: Config)
    requires m.state == Fragment && 0 <= m.cursor <= |input| && !m.u.invalid
    ensures Run(input, ov, base, m) ==
            Done(m.u.(fragment := m.u.fragment + Squeeze(Slice(input, m.cursor, |input|))))
    decreases |input| - m.cursor
  {
    hide Run, Squeeze, Slice, IsTabOrNewline;
    SqueezeSplit(input, m.cursor, m.u.fragment);
    if m.cursor < |input| {
      var t := if IsTabOrNewline(input[m.cursor]) then "" else [input[m.cursor]];
      FragmentRound(input, ov, base, m, t);
      FragmentScan(input, ov, base, m.(cursor := m.cursor + 1, u := m.u.(fragment := m.u.fragment + t)));
    } else {
      EndRound(input, ov, base, m);
    }
  }

  /** At the end of input the states of the tail only step over it. */
  lemma EndRound(input: string, ov: Option<State>, base: Option<Url>, m: Config)
    requires m.state in {SchemeData, Query, Fragment} && m.cursor == |input| && !m.u.invalid
    ensures Run(input, ov, base, m) == Done(m.u)
  {
    Round(input, ov, base, m, m.(cursor := m.cursor + 1));
  }
}
