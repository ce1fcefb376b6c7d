/** The URL class: the parsing loop that fills an object in place, its constructor, getters and
    setters, each proved against the functions of UrlMachine and UrlInvariant. */
module UrlObject {
  import opened Wrappers
  import opened Text
  import opened UrlMachine
  import opened UrlInvariant

  /** How a call on an object ends: normally, with an exception, or at a port that is not exact. */
  datatype Status = Completed | Raised | Inexact

  function OutcomeOf(status: Status, u: Url): Outcome {
    match status
    case Completed => Done(u)
    case Raised => Threw(u)
    case Inexact => PortOverflow(u)
  }

  /** How a case of the loop ends: stepping over the character, looking at it again in another
      state, leaving the loop, or one of the exceptional ends. */
  datatype Signal = Advance | Again | Leave | Raise | TooBig

  /** The variables of the loop. */
  datatype Loop = Loop(state: State, cursor: int, buffer: string, seenAt: bool, seenBracket: bool)

  function ConfigOf(l: Loop, u: Url): Config {
    Config(l.state, l.cursor, l.buffer, l.seenAt, l.seenBracket, u)
  }

  function MoveOf(signal: Signal, l: Loop, u: Url): Move {
    match signal
    case Advance => Next(ConfigOf(l.(cursor := l.cursor + 1), u))
    case Again => Next(ConfigOf(l, u))
    case Leave => Break(u)
    case Raise => Throw(u)
    case TooBig => Overflow(u)
  }

  class JUrl {
    var url: string
    var scheme: string
    var schemeData: string
    var username: string
    var password: Option<string>
    var host: string
    var port: string
    var path: seq<string>
    var query: string
    var fragment: string
    var isInvalid: bool
    var isRelative: bool

    ghost function Value(): Url
      reads this
    {
      Url(scheme, schemeData, username, password, host, port, path, query, fragment, isInvalid, isRelative)
    }

    // ---------- clearing ----------

    method Clear()
      modifies this
      ensures Value() == BLANK && url == old(url)
    {
      scheme, schemeData, username, password := "", "", "", None;
      host, port, path, query, fragment := "", "", [], "", "";
      isInvalid, isRelative := false, false;
    }

    method Invalidate()
      modifies this
      ensures Value() == INVALID && url == old(url)
    {
      Clear();
      isInvalid := true;
    }

    /** Lower-cases a host; an empty one invalidates the object. */
    method IdnaToAscii(h: string) returns (r: string)
      modifies this
      ensures r == Lower(h) && url == old(url)
      ensures Value() == if h == "" then INVALID else old(Value())
    {
      if h == "" { Invalidate(); }
      r := Lower(h);
    }

    method StoreHost(h: string)
      modifies this
      ensures Value() == WithHost(old(Value()), h) && url == old(url)
    {
      var r := IdnaToAscii(h);
      assert h == "" ==> r == "";
      host := r;
    }

    // ---------- the cases of the loop ----------

    method SchemeStartCase(ov: Option<State>, l: Loop, c: Option<char>) returns (signal: Signal, n: Loop)
      requires l.state == SchemeStart
      ensures MoveOf(signal, n, Value()) == StepSchemeStart(ov, ConfigOf(l, Value()), c)
    {
      signal, n := Leave, l;
      if c.Some? && Alpha(c.value) {
        signal, n := Advance, l.(buffer := l.buffer + [LowerChar(c.value)], state := Scheme);
      } else if ov.None? {
        signal, n := Again, l.(buffer := "", state := NoScheme);
      }
    }

    method SchemeCase(ov: Option<State>, base: JUrl?, l: Loop, c: Option<char>) returns (signal: Signal, n: Loop)
      requires base != this && l.state == Scheme
      modifies this`scheme, this`isRelative
      ensures MoveOf(signal, n, Value()) == StepScheme(ov, BaseValue(base), ConfigOf(l, old(Value())), c)
    {
      signal, n := Advance, l;
      if c.Some? && SchemeChar(c.value) {
        n := l.(buffer := l.buffer + [LowerChar(c.value)]);
      } else if c == Some(':') {
        scheme := l.buffer;
        if ov.Some? {
          signal := Leave;
        } else {
          if IsRelativeScheme(scheme) { isRelative := true; }
          var next :=
            if IsFile(scheme) then Relative
            else if isRelative && base != null && base.scheme == scheme then RelativeOrAuthority
            else if isRelative then AuthorityFirstSlash
            else SchemeData;
          n := l.(buffer := "", state := next);
        }
      } else if ov.None? {
        signal, n := Again, l.(buffer := "", cursor := 0, state := NoScheme);
      } else {
        signal := Leave;
      }
    }

    method SchemeDataCase(l: Loop, c: Option<char>) returns (signal: Signal, n: Loop)
      requires l.state == SchemeData
      modifies this`schemeData, this`fragment
      ensures MoveOf(signal, n, Value()) == StepSchemeData(ConfigOf(l, old(Value())), c)
    {
      signal, n := Advance, l;
      if c == Some('?') {
        signal := Raise;
      } else if c == Some('#') {
        fragment := "#";
        n := l.(state := Fragment);
      } else if c.Some? && !IsTabOrNewline(c.value) {
        schemeData := schemeData + PercentEscape(c.value);
      }
    }

    method NoSchemeCase(base: JUrl?, l: Loop) returns (signal: Signal, n: Loop)
      requires base != this && l.state == NoScheme
      modifies this
      ensures url == old(url)
      ensures MoveOf(signal, n, Value()) == StepNoScheme(BaseValue(base), ConfigOf(l, old(Value())))
    {
      signal, n := Advance, l;
      if base == null || !IsRelativeScheme(base.scheme) {
        Invalidate();
      } else {
        signal, n := Again, l.(state := Relative);
      }
    }

    /** The base's host, port and path, copied. */
    method CopyBase(base: JUrl)
      requires base != this
      modifies this`host, this`port, this`path
      ensures Value() == Inherit(old(Value()), base.Value())
    {
      host, port, path := base.host, base.port, base.path;
    }

    method RelativeTail(base: JUrl, l: Loop, c: Option<char>) returns (signal: Signal, n: Loop)
      requires base != this
      modifies this`host, this`port, this`path, this`query, this`fragment
      ensures MoveOf(signal, n, Value()) == TakeBase(base.Value(), ConfigOf(l, old(Value())), c)
    {
      CopyBase(base);
      if c.None? {
        query := base.query;
        signal, n := Leave, l;
      } else if c == Some('?') {
        query := "?";
        signal, n := Advance, l.(state := Query);
      } else if c == Some('#') {
        query, fragment := base.query, "#";
        signal, n := Advance, l.(state := Fragment);
      } else {
        if path != [] { path := path[..|path| - 1]; }
        signal, n := Again, l.(state := RelativePath);
      }
    }

    /** Marks the object as hierarchical; unless it is a file URL it takes the base's scheme. */
    method AdoptScheme(base: JUrl?) returns (ok: bool)
      requires base != this
      modifies this`scheme, this`isRelative
      ensures ok == (IsFile(old(scheme)) || base != null)
      ensures Value() == if IsFile(old(scheme)) || base == null then old(Value()).(relative := true)
                         else old(Value()).(relative := true, scheme := base.scheme)
    {
      hide IsFile;
      isRelative := true;
      ok := true;
      if !IsFile(scheme) {
        if base == null { return false; }
        scheme := base.scheme;
      }
    }

    method RelativeCase(base: JUrl?, l: Loop, c: Option<char>, c1: Option<char>, c2: Option<char>)
      returns (signal: Signal, n: Loop)
      requires base != this && l.state == Relative
      modifies this`scheme, this`isRelative, this`host, this`port, this`path, this`query, this`fragment
      ensures MoveOf(signal, n, Value()) == StepRelative(BaseValue(base), ConfigOf(l, old(Value())), c, c1, c2)
    {
      hide RelativeOn, IsFile;
      var ok := AdoptScheme(base);
      if !ok { return Raise, l; }
      signal, n := RelativeOnCase(base, l, c, c1, c2);
    }

    method RelativeOnCase(base: JUrl?, l: Loop, c: Option<char>, c1: Option<char>, c2: Option<char>)
      returns (signal: Signal, n: Loop)
      requires base != this
      modifies this`host, this`port, this`path, this`query, this`fragment
      ensures MoveOf(signal, n, Value()) == RelativeOn(BaseValue(base), ConfigOf(l, old(Value())), c, c1, c2)
    {
      hide TakeBase, StartsWithDrive, IsFile, IsSlash;
      if IsSlash(c) { return Advance, l.(state := RelativeSlash); }
      if c.Some? && c != Some('?') && c != Some('#') && IsFile(scheme) && StartsWithDrive(c, c1, c2) {
        return Again, l.(state := RelativePath);
      }
      if base == null { return Raise, l; }
      signal, n := RelativeTail(base, l, c);
    }

    method RelativeSlashCase(base: JUrl?, l: Loop, c: Option<char>) returns (signal: Signal, n: Loop)
      requires base != this && l.state == RelativeSlash
      modifies this`host, this`port
      ensures MoveOf(signal, n, Value()) == StepRelativeSlash(BaseValue(base), ConfigOf(l, old(Value())), c)
    {
      if IsSlash(c) {
        return Advance, l.(state := if IsFile(scheme) then FileHost else AuthorityIgnoreSlashes);
      }
      if !IsFile(scheme) {
        if base == null { return Raise, l; }
        host, port := base.host, base.port;
      }
      return Again, l.(state := RelativePath);
    }

    /** The user information in the buffer, character by character. */
    method ReadUserInfo(b: string)
      modifies this`username, this`password
      ensures (username, password) == UserInfo(old(username), old(password), b)
    {
      for i := 0 to |b|
        invariant (username, password) == UserInfo(old(username), old(password), b[..i])
      {
        assert b[..i + 1][..i] == b[..i];
        var cp := b[i];
        if IsTabOrNewline(cp) { continue; }
        if cp == ':' && password.None? {
          password := Some("");
          continue;
        }
        var escaped := PercentEscape(cp);
        if password.Some? { password := Some(password.value + escaped); }
        else { username := username + escaped; }
      }
      assert b[..|b|] == b;
    }

    method AuthorityCase(l: Loop, c: Option<char>) returns (signal: Signal, n: Loop)
      requires l.state == Authority
      modifies this`username, this`password
      ensures MoveOf(signal, n, Value()) == StepAuthority(ConfigOf(l, old(Value())), c)
    {
      signal, n := Advance, l;
      if c == Some('@') {
        ReadUserInfo(if l.seenAt then l.buffer + "%40" else l.buffer);
        n := l.(buffer := "", seenAt := true);
      } else if EndsPart(c) {
        signal, n := Again, l.(cursor := l.cursor - |l.buffer|, buffer := "", state := Host);
      } else {
        n := l.(buffer := l.buffer + [c.value]);
      }
    }

    method FileHostCase(l: Loop, c: Option<char>) returns (signal: Signal, n: Loop)
      requires l.state == FileHost
      modifies this
      ensures url == old(url)
      ensures MoveOf(signal, n, Value()) == StepFileHost(ConfigOf(l, old(Value())), c)
    {
      signal, n := Advance, l;
      if EndsPart(c) {
        signal := Again;
        if IsDrive(l.buffer) {
          n := l.(state := RelativePath);
        } else {
          if l.buffer != "" { StoreHost(l.buffer); }
          n := l.(buffer := "", state := RelativePathStart);
        }
      } else if !IsTabOrNewline(c.value) {
        n := l.(buffer := l.buffer + [c.value]);
      }
    }

    method HostCase(ov: Option<State>, l: Loop, c: Option<char>) returns (signal: Signal, n: Loop)
      requires l.state == Host || l.state == Hostname
      modifies this
      ensures url == old(url)
      ensures MoveOf(signal, n, Value()) == StepHost(ov, ConfigOf(l, old(Value())), c)
    {
      signal, n := Advance, l;
      if c == Some(':') && !l.seenBracket {
        StoreHost(l.buffer);
        n := l.(buffer := "", state := Port);
        if ov == Some(Hostname) { signal := Leave; }
      } else if EndsPart(c) {
        StoreHost(l.buffer);
        n := l.(buffer := "", state := RelativePathStart);
        signal := if ov.Some? then Leave else Again;
      } else if !IsTabOrNewline(c.value) {
        var open := if c == Some('[') then true else if c == Some(']') then false else l.seenBracket;
        n := l.(seenBracket := open, buffer := l.buffer + [c.value]);
      }
    }

    method PortCase(ov: Option<State>, l: Loop, c: Option<char>) returns (signal: Signal, n: Loop)
      requires l.state == Port
      modifies this
      ensures url == old(url)
      ensures MoveOf(signal, n, Value()) == StepPort(ov, ConfigOf(l, old(Value())), c)
    {
      signal, n := Advance, l;
      if c.Some? && Digit(c.value) {
        n := l.(buffer := l.buffer + [c.value]);
      } else if EndsPart(c) || ov.Some? {
        if l.buffer != "" {
          var number := ParseNat(l.buffer);
          if number >= MAX_EXACT { return TooBig, l; }
          if DefaultPort(scheme) != Some(number) { port := Decimal(number); }
        }
        signal, n := if ov.Some? then Leave else Again, l.(buffer := "", state := RelativePathStart);
      } else if !IsTabOrNewline(c.value) {
        Invalidate();
      }
    }

    /** The end of a path segment. */
    method EndSegment(b: string, slash: bool)
      modifies this`path
      ensures path == PushSegment(IsFile(scheme), old(path), b, slash)
    {
      var s := Undot(b);
      if s == ".." {
        if path != [] { path := path[..|path| - 1]; }
        if !slash { path := path + [""]; }
      } else if s == "." && !slash {
        path := path + [""];
      } else if s != "." {
        if IsFile(scheme) && path == [] && IsPipeDrive(s) { s := [s[0], ':']; }
        path := path + [s];
      }
    }

    method RelativePathCase(ov: Option<State>, l: Loop, c: Option<char>) returns (signal: Signal, n: Loop)
      requires l.state == RelativePath
      modifies this`path, this`query, this`fragment
      ensures MoveOf(signal, n, Value()) == StepRelativePath(ov, ConfigOf(l, old(Value())), c)
    {
      signal, n := Advance, l;
      if c.None? || IsSlash(c) || (ov.None? && (c == Some('?') || c == Some('#'))) {
        EndSegment(l.buffer, IsSlash(c));
        n := l.(buffer := "");
        if c == Some('?') {
          query := "?";
          n := n.(state := Query);
        } else if c == Some('#') {
          fragment := "#";
          n := n.(state := Fragment);
        }
      } else if !IsTabOrNewline(c.value) {
        n := l.(buffer := l.buffer + PercentEscape(c.value));
      }
    }

    method QueryCase(ov: Option<State>, l: Loop, c: Option<char>) returns (signal: Signal, n: Loop)
      requires l.state == Query
      modifies this`query, this`fragment
      ensures MoveOf(signal, n, Value()) == StepQuery(ov, ConfigOf(l, old(Value())), c)
    {
      signal, n := Advance, l;
      if ov.None? && c == Some('#') {
        fragment := "#";
        n := l.(state := Fragment);
      } else if c.Some? && !IsTabOrNewline(c.value) {
        query := query + PercentEscapeQuery(c.value);
      }
    }

    method FragmentCase(l: Loop, c: Option<char>) returns (signal: Signal, n: Loop)
      requires l.state == Fragment
      modifies this`fragment
      ensures MoveOf(signal, n, Value()) == StepFragment(ConfigOf(l, old(Value())), c)
    {
      signal, n := Advance, l;
      if c.Some? && !IsTabOrNewline(c.value) { fragment := fragment + [c.value]; }
    }

    /** The states that only look for slashes. */
    method SlashCase(l: Loop, c: Option<char>, c1: Option<char>) returns (signal: Signal, n: Loop)
      requires l.state in {RelativeOrAuthority, AuthorityFirstSlash, AuthoritySecondSlash, AuthorityIgnoreSlashes,
                           RelativePathStart}
      ensures l.state == RelativeOrAuthority ==>
                MoveOf(signal, n, Value()) == StepRelativeOrAuthority(ConfigOf(l, Value()), c, c1)
      ensures l.state == AuthorityFirstSlash ==>
                MoveOf(signal, n, Value()) == StepAuthorityFirstSlash(ConfigOf(l, Value()), c)
      ensures l.state == AuthoritySecondSlash ==>
                MoveOf(signal, n, Value()) == StepAuthoritySecondSlash(ConfigOf(l, Value()), c)
      ensures l.state == AuthorityIgnoreSlashes ==>
                MoveOf(signal, n, Value()) == StepAuthorityIgnoreSlashes(ConfigOf(l, Value()), c)
      ensures l.state == RelativePathStart ==>
                MoveOf(signal, n, Value()) == StepRelativePathStart(ConfigOf(l, Value()), c)
    {
      var slash := c == Some('/');
      match l.state {
        case RelativeOrAuthority =>
          if slash && c1 == Some('/') { return Advance, l.(state := AuthorityIgnoreSlashes); }
          return Again, l.(state := Relative);
        case AuthorityFirstSlash =>
          if slash { return Advance, l.(state := AuthoritySecondSlash); }
          return Again, l.(state := AuthorityIgnoreSlashes);
        case AuthoritySecondSlash =>
          return if slash then Advance else Again, l.(state := AuthorityIgnoreSlashes);
        case AuthorityIgnoreSlashes =>
          if IsSlash(c) { return Advance, l; }
          return Again, l.(state := Authority);
        case RelativePathStart =>
          return if IsSlash(c) then Advance else Again, l.(state := RelativePath);
      }
    }

    /** The switch of the loop. */
    method Round(input: string, ov: Option<State>, base: JUrl?, l: Loop) returns (signal: Signal, n: Loop)
      requires base != this
      modifies this
      ensures url == old(url)
      ensures MoveOf(signal, n, Value()) == Step(input, ov, BaseValue(base), ConfigOf(l, old(Value())))
    {
      hide StepSchemeStart, StepScheme, StepSchemeData, StepNoScheme, StepRelativeOrAuthority, StepRelative,
        StepRelativeSlash, StepAuthorityFirstSlash, StepAuthoritySecondSlash, StepAuthorityIgnoreSlashes, StepAuthority,
        StepFileHost, StepHost, StepPort, StepRelativePathStart, StepRelativePath, StepQuery, StepFragment, MoveOf,
        Value;
      var c := At(input, l.cursor);
      match l.state {
        case SchemeStart => signal, n := SchemeStartCase(ov, l, c);
        case Scheme => signal, n := SchemeCase(ov, base, l, c);
        case SchemeData => signal, n := SchemeDataCase(l, c);
        case NoScheme => signal, n := NoSchemeCase(base, l);
        case Relative =>
          signal, n := RelativeCase(base, l, c, At(input, l.cursor + 1), At(input, l.cursor + 2));
        case RelativeSlash => signal, n := RelativeSlashCase(base, l, c);
        case Authority => signal, n := AuthorityCase(l, c);
        case FileHost => signal, n := FileHostCase(l, c);
        case Host => signal, n := HostCase(ov, l, c);
        case Hostname => signal, n := HostCase(ov, l, c);
        case Port => signal, n := PortCase(ov, l, c);
        case RelativePath => signal, n := RelativePathCase(ov, l, c);
        case Query => signal, n := QueryCase(ov, l, c);
        case Fragment => signal, n := FragmentCase(l, c);
        case _ => signal, n := SlashCase(l, c, At(input, l.cursor + 1));
      }
    }

    // ---------- the parser ----------

    /** The parsing loop, on this object as it is. */
    method Parse(input: string, ov: Option<State>, base: JUrl?) returns (status: Status)
      requires base != this
      modifies this
      ensures url == old(url)
      ensures OutcomeOf(status, Value()) == UrlMachine.Parse(input, ov, BaseValue(base), old(Value()))
    {
      var l := Loop(if ov.Some? then ov.value else SchemeStart, 0, "", false, false);
      ghost var b := BaseValue(base);
      ghost var goal := UrlMachine.Parse(input, ov, b, Value());
      while (l.cursor == 0 || At(input, l.cursor - 1).Some?) && !isInvalid
        invariant url == old(url) && BaseValue(base) == b
        invariant Run(input, ov, b, ConfigOf(l, Value())) == goal
        decreases Rank(l.state), |input| + 1 - l.cursor
      {
        ghost var m := ConfigOf(l, Value());
        StepProgress(input, ov, b, m);
        var signal, n := Round(input, ov, base, l);
        match signal {
          case Leave => return Completed;
          case Raise => return Raised;
          case TooBig => return Inexact;
          case Again => l := n;
          case Advance => l := n.(cursor := n.cursor + 1);
        }
      }
      status := Completed;
    }

    // ---------- constructor ----------

    constructor (text: string)
      ensures url == text && Value() == BLANK
    {
      url := text;
      scheme, schemeData, username, password := "", "", "", None;
      host, port, path, query, fragment := "", "", [], "", "";
      isInvalid, isRelative := false, false;
    }

    /** Making a URL from a text and perhaps a base. Only a completed construction hands an object
        to the caller. */
    static method Make(text: string, base: JUrl?) returns (status: Status, made: JUrl)
      ensures fresh(made) && made.url == text
      ensures OutcomeOf(status, made.Value()) == Construct(text, BaseValue(base))
    {
      made := new JUrl(text);
      status := made.Parse(Trim(text), None, base);
    }

    // ---------- getters ----------

    function Protocol(): string
      reads this
    {
      scheme + ":"
    }

    function GetHost(): (r: string)
      reads this
      ensures r == HostText(Value())
    {
      if isInvalid then "" else if port != "" then host + ":" + port else host
    }

    function GetPathname(): (r: string)
      reads this
      ensures r == PathText(Value())
    {
      if isInvalid then "" else if isRelative then "/" + Join(path, '/') else schemeData
    }

    function GetHref(): (r: string)
      reads this
      ensures r == Href(Value(), url)
    {
      if isInvalid then url
      else
        var authority :=
          if username != "" || password.Some? then
            username + (if password.Some? then ":" + password.value else "") + "@"
          else "";
        Protocol() + (if isRelative then "//" + authority + GetHost() else "") + GetPathname() + query + fragment
    }

    // ---------- setters ----------

    /** Any of the setters; on the objects that it does not apply to it does nothing. */
    method Set(call: Call) returns (status: Status)
      modifies this
      ensures url == old(url)
      ensures OutcomeOf(status, Value()) == Apply(old(Value()), call)
    {
      hide UrlMachine.Parse;
      status := Completed;
      match call {
        case SetHref(t) =>
          Clear();
          status := Parse(t, None, null);
        case SetProtocol(t) =>
          if !isInvalid { status := Parse(t + ":", Some(SchemeStart), null); }
        case SetHost(t) =>
          if !isInvalid && isRelative { status := Parse(t, Some(Host), null); }
        case SetHostname(t) =>
          if !isInvalid && isRelative { status := Parse(t, Some(Hostname), null); }
        case SetPort(t) =>
          if !isInvalid && isRelative { status := Parse(t, Some(Port), null); }
        case SetPathname(t) =>
          if !isInvalid && isRelative {
            path := [];
            status := Parse(t, Some(RelativePathStart), null);
          }
        case SetSearch(t) =>
          if !isInvalid && isRelative {
            query := "?";
            status := Parse(Strip(t, '?'), Some(Query), null);
          }
        case SetHash(t) =>
          if !isInvalid {
            fragment := "#";
            status := Parse(Strip(t, '#'), Some(Fragment), null);
          }
      }
    }
  }

  ghost function BaseValue(base: JUrl?): Option<Url>
    reads base
  {
    if base == null then None else Some(base.Value())
  }
}
