/** The setters: what each may change, and when writing a component back changes nothing. */
module UrlSetters {
  import opened Wrappers
  import opened Text
  import opened UrlMachine
  import opened UrlInvariant
  import opened UrlScan
  import opened UrlCanonical
  import opened UrlRoundTrip

  // ---------- frames ----------

  /** Every field but those a setter names. */
  predicate Frame(call: Call, u: Url, v: Url) {
    match call
    case SetHref(_) => true
    case SetProtocol(_) => v == u.(scheme := v.scheme)
    case SetHost(_) => v == INVALID || v == u.(host := v.host, port := v.port)
    case SetHostname(_) => v == INVALID || v == u.(host := v.host)
    case SetPort(_) => v == u.(port := v.port)
    case SetPathname(_) => v == u.(path := v.path)
    case SetSearch(_) => v == u.(query := v.query)
    case SetHash(_) => v == u.(fragment := v.fragment)
  }

  /** From the scheme states under an override only the scheme changes. */
  lemma {:induction false} SchemeRun(input: string, m: Config)
    requires m.state in {SchemeStart, Scheme}
    ensures var o := Run(input, Some(SchemeStart), None, m); o.Done? && o.u == m.u.(scheme := o.u.scheme)
    decreases Rank(m.state), |input| + 1 - m.cursor
  {
    if InLoop(input, m) {
      StepProgress(input, Some(SchemeStart), None, m);
      var r := Step(input, Some(SchemeStart), None, m);
      assert r.Next? ==> r.next.u == m.u && r.next.state == Scheme;
      if r.Next? { SchemeRun(input, r.next); }
    }
  }

  lemma PortStepFrame(ov: Option<State>, m: Config, c: Option<char>)
    requires m.state == Port && ov.Some?
    ensures var r := StepPort(ov, m, c);
            && (r.Next? ==> r.next.state == Port && r.next.u == m.u)
            && (r.Break? || r.Overflow? ==> r.u == m.u.(port := r.u.port))
            && !r.Throw?
  {
    hide ParseNat, Decimal, DefaultPort;
  }

  /** From the port state under an override only the port changes. */
  lemma {:induction false} PortRun(input: string, ov: Option<State>, m: Config)
    requires m.state == Port && ov.Some?
    ensures var o := Run(input, ov, None, m); !o.Threw? && o.u == m.u.(port := o.u.port)
    decreases |input| + 1 - m.cursor
  {
    if InLoop(input, m) {
      StepProgress(input, ov, None, m);
      PortStepFrame(ov, m, At(input, m.cursor));
      var r := Step(input, ov, None, m);
      hide StepPort;
      if r.Next? { PortRun(input, ov, r.next); }
    }
  }

  lemma HostStepFrame(ov: Option<State>, m: Config, c: Option<char>)
    requires (m.state == Host && ov == Some(Host)) || (m.state == Hostname && ov == Some(Hostname))
    ensures var r := StepHost(ov, m, c);
            && (r.Next? && r.next.state != Port ==> r.next.state == m.state && r.next.u == m.u)
            && (r.Next? && r.next.state == Port ==>
                  ov == Some(Host) && (r.next.u == INVALID || r.next.u == m.u.(host := r.next.u.host)))
            && (r.Break? ==> r.u == INVALID || r.u == m.u.(host := r.u.host))
            && !r.Throw? && !r.Overflow?
  {
    hide Lower;
  }

  /** From the host state under an override host and port change, or the object is invalidated;
      from the hostname state only the host. */
  lemma {:induction false} HostRun(input: string, ov: Option<State>, m: Config)
    requires (m.state == Host && ov == Some(Host)) || (m.state == Hostname && ov == Some(Hostname))
    ensures var o := Run(input, ov, None, m);
            && !o.Threw? && (o.u == INVALID || o.u == m.u.(host := o.u.host, port := o.u.port))
            && (ov == Some(Hostname) ==> o.Done? && (o.u == INVALID || o.u == m.u.(host := o.u.host)))
    decreases |input| + 1 - m.cursor
  {
    if InLoop(input, m) {
      StepProgress(input, ov, None, m);
      HostStepFrame(ov, m, At(input, m.cursor));
      var r := Step(input, ov, None, m);
      assert r == StepHost(ov, m, At(input, m.cursor));
      hide StepHost, Step;
      if r.Next? {
        if r.next.state == Port {
          if r.next.u.invalid { assert !InLoop(input, r.next); }
          else { hide Run; PortRun(input, ov, r.next); }
        } else {
          HostRun(input, ov, r.next);
        }
      }
    }
  }

  /** From the path states under an override only the path changes. */
  lemma {:induction false} PathRun(input: string, m: Config)
    requires m.state in {RelativePathStart, RelativePath}
    ensures var o := Run(input, Some(RelativePathStart), None, m); o.Done? && o.u == m.u.(path := o.u.path)
    decreases Rank(m.state), |input| + 1 - m.cursor
  {
    hide PushSegment;
    if InLoop(input, m) {
      StepProgress(input, Some(RelativePathStart), None, m);
      var r := Step(input, Some(RelativePathStart), None, m);
      assert r.Next? && r.next.u == m.u.(path := r.next.u.path) && r.next.state == RelativePath;
      PathRun(input, r.next);
    }
  }

  /** From the query or fragment state under an override only that part changes. */
  lemma {:induction false} TailRun(input: string, ov: State, m: Config)
    requires m.state == ov && (ov == Query || ov == Fragment)
    ensures var o := Run(input, Some(ov), None, m);
            o.Done? && o.u == if ov == Query then m.u.(query := o.u.query) else m.u.(fragment := o.u.fragment)
    decreases |input| + 1 - m.cursor
  {
    if InLoop(input, m) {
      StepProgress(input, Some(ov), None, m);
      var r := Step(input, Some(ov), None, m);
      assert r.Next? && r.next.state == ov;
      assert r.next.u == if ov == Query then m.u.(query := r.next.u.query) else m.u.(fragment := r.next.u.fragment);
      TailRun(input, ov, r.next);
    }
  }

  /** A component setter never raises an exception, and changes only its own field; `host` may
      change the port too, and both host setters may invalidate the object. */
  lemma SetterFrame(u: Url, call: Call)
    requires !call.SetHref?
    ensures !Apply(u, call).Threw? && Frame(call, u, Apply(u, call).u)
  {
    hide Run;
    match call {
      case SetProtocol(t) => SchemeRun(t + ":", Start(Some(SchemeStart), u));
      case SetHost(t) => HostRun(t, Some(Host), Start(Some(Host), u));
      case SetHostname(t) => HostRun(t, Some(Hostname), Start(Some(Hostname), u));
      case SetPort(t) => PortRun(t, Some(Port), Start(Some(Port), u));
      case SetPathname(t) => PathRun(t, Start(Some(RelativePathStart), u.(path := [])));
      case SetSearch(t) => TailRun(Strip(t, '?'), Query, Start(Some(Query), u.(query := "?")));
      case SetHash(t) => TailRun(Strip(t, '#'), Fragment, Start(Some(Fragment), u.(fragment := "#")));
      case SetHref(t) =>
    }
  }

  // ---------- writing a component back ----------

  /** The setter call that assigns a component its own current value, as its getter gives it. */
  function WriteHost(u: Url): Outcome { Apply(u, SetHost(HostText(u))) }

  function WritePathname(u: Url): Outcome { Apply(u, SetPathname(PathText(u))) }

  /** Reading back a path gives it as it is, unless its first segment is a drive spelled with '|'
      or there is no segment at all. */
  predicate PathReadable(u: Url) {
    u.path != [] && (IsFile(u.scheme) ==> !IsPipeDrive(u.path[0]))
  }

  lemma PushSegmentsDrive(segments: seq<string>)
    requires GoodPath(segments) && segments != [] && IsPipeDrive(segments[0])
    ensures PushSegments(true, [], segments) != segments
  {
    var drive := [segments[0][0], ':'];
    UndotDots(segments[0]);
    assert GoodSegment(segments[0]);
    hide Undot;
    assert PushSegment(true, [], segments[0], |segments| > 1) == [drive];
    assert [drive] != [] && GoodPath(segments[1..]);
    PushSegmentsSame(true, [drive], segments[1..]);
    assert ([drive] + segments[1..])[0][1] == ':';
  }

  /** A path text that ends the input. */
  lemma PathTextAhead(text: string, n: Config, path: seq<string>)
    requires n.state == RelativePath && n.cursor == 1 && n.buffer == "" && !n.u.invalid
    requires text == "/" + Join(path, '/') && GoodPath(path) && path != []
    ensures PathAhead(text, Some(RelativePathStart), n, |text|, path)
  {
    hide Join;
    assert Slice(text, 1, |text|) == Join(path, '/');
    assert forall i :: 0 <= i < |path| ==> GoodSegment(path[i]);
  }

  lemma PathAtEnd(text: string, n: Config, u: Url)
    requires n.state == RelativePath && !u.invalid
    ensures Run(text, Some(RelativePathStart), None, AfterPath(n, |text| + 1, At(text, |text|), u)) == Done(u)
  {
    assert !InLoop(text, AfterPath(n, |text| + 1, At(text, |text|), u));
  }

  /** The path setter on a printed path. */
  lemma PathnameRead(u: Url, path: seq<string>)
    requires !u.invalid && u.relative && GoodPath(path) && path != []
    ensures Apply(u, SetPathname("/" + Join(path, '/'))) ==
            Done(u.(path := PushSegments(IsFile(u.scheme), [], path)))
  {
    hide Run, PathAhead, PushSegments, Join, GoodPath, AfterPath;
    var ov := Some(RelativePathStart);
    var text := "/" + Join(path, '/');
    var m := Start(ov, u.(path := []));
    var n := m.(state := RelativePath, cursor := 1);
    PathTextAhead(text, n, path);
    PathStartRound(text, ov, None, m);
    PathScan(text, ov, None, n, |text|, path);
    PathAtEnd(text, n, n.u.(path := PushSegments(IsFile(u.scheme), [], path)));
  }

  /** Assigning pathname its own value changes nothing, exactly when the path is readable. */
  lemma PathnameWriteBack(u: Url)
    requires Sound(u) && !u.invalid && u.relative
    ensures WritePathname(u) == Done(u) <==> PathReadable(u)
  {
    var path := if u.path == [] then [""] else u.path;
    assert Lower("") == "";
    assert PathText(u) == "/" + Join(path, '/');
    assert GoodPath(path) && path != [];
    hide Run, Join;
    PathnameRead(u, path);
    if PathReadable(u) {
      PushSegmentsSame(IsFile(u.scheme), [], path);
      assert [] + path == path;
    } else if u.path == [] {
      PushSegmentsSame(IsFile(u.scheme), [], path);
    } else {
      PushSegmentsDrive(path);
    }
  }

  /** The first colon of a host that is not inside a bracket. */
  function FirstColon(host: string): (k: nat)
    ensures k <= |host| && ColonsBracketed(host[..k])
    ensures k < |host| ==> host[k] == ':' && !OpenBracket(host[..k])
    ensures ColonsBracketed(host) <==> k == |host|
  {
    if host == "" then 0
    else
      var n := |host| - 1;
      var k := FirstColon(host[..n]);
      assert host[..n][..k] == host[..k];
      assert forall i :: 0 <= i < n ==> host[..n][..i] == host[..i];
      if k < n then k
      else if host[n] == ':' && !OpenBracket(host[..n]) then n
      else
        assert host[..n + 1] == host;
        n + 1
  }

  /** The host setter on a text whose part up to k has no bare colon and ends there. */
  lemma HostEnd(t: string, m: Config)
    requires m.state == Host && 0 <= m.cursor <= |t| && !m.u.invalid
    requires m.cursor == |t|
    ensures Run(t, Some(Host), None, m) == Done(WithHost(m.u, m.buffer))
  {
    assert Step(t, Some(Host), None, m) == Break(WithHost(m.u, m.buffer));
    hide Step, WithHost;
  }

  /** A host that is read whole and ends the text. */
  lemma WholeHost(u: Url, t: string)
    requires !u.invalid && u.relative && AllHost(t) && ColonsBracketed(t)
    ensures Apply(u, SetHost(t)) == Done(WithHost(u, t))
  {
    var m := Start(Some(Host), u);
    assert Slice(t, 0, |t|) == t;
    hide Run, WithHost, Slice, AllHost, ColonsBracketed;
    HostStateRead(t, Some(Host), None, m, t);
    HostEnd(t, m.(cursor := |t|, buffer := t, seenBracket := OpenBracket(t)));
  }

  /** A host that ends at a bare colon: the rest can only set the port. */
  lemma HostThenColon(u: Url, host: string, rest: string)
    requires !u.invalid && u.relative && AllHost(host) && ColonsBracketed(host) && !OpenBracket(host)
    ensures Apply(u, SetHost(host + ":" + rest)) ==
            if host == "" then Done(INVALID)
            else Run(host + ":" + rest, Some(Host), None,
                     Config(Port, |host| + 1, "", false, false, u.(host := Lower(host))))
  {
    var t := host + ":" + rest;
    var m := Start(Some(Host), u);
    assert Slice(t, 0, |host|) == host;
    var n := m.(cursor := |host|, buffer := host);
    hide Run, Slice, AllHost, ColonsBracketed, OpenBracket;
    HostStateRead(t, Some(Host), None, m, host);
    assert t[|host|] == ':';
    ColonRoundOverride(t, n);
  }

  lemma ColonRoundOverride(t: string, m: Config)
    requires m.state == Host && !m.u.invalid && 0 <= m.cursor < |t| && t[m.cursor] == ':' && !m.seenBracket
    ensures Run(t, Some(Host), None, m) ==
            if m.buffer == "" then Done(INVALID)
            else Run(t, Some(Host), None,
                     m.(state := Port, cursor := m.cursor + 1, buffer := "", u := m.u.(host := Lower(m.buffer))))
  {
    var n := m.(state := Port, cursor := m.cursor + 1, buffer := "", u := WithHost(m.u, m.buffer));
    Round(t, Some(Host), None, m, n);
    assert m.buffer == "" ==> !InLoop(t, n);
    assert m.buffer == "" ==> Run(t, Some(Host), None, n) == Done(INVALID);
  }

  lemma PortEnd(t: string, ov: Option<State>, m: Config)
    requires m.state == Port && !m.u.invalid && 0 <= m.cursor == |t| && ov.Some? && GoodPort(m.buffer)
    requires m.u.port == m.buffer
    ensures Run(t, ov, None, m) == Done(m.u)
  {
    assert Step(t, ov, None, m) == Break(m.u) by {
      hide ParseNat, Decimal, DefaultPort;
    }
    hide Step;
  }

  /** The host is read back as it is, and the port after it as a port. */
  predicate HostReadable(u: Url) {
    u.host != "" && ColonsBracketed(u.host) && (u.port != "" ==> !OpenBracket(u.host))
  }

  lemma PortTail(u: Url)
    requires !u.invalid && u.port != "" && GoodPort(u.port)
    ensures Run(u.host + ":" + u.port, Some(Host), None, Config(Port, |u.host| + 1, "", false, false, u)) == Done(u)
  {
    hide Run, GoodPort;
    var t := u.host + ":" + u.port;
    var n := Config(Port, |u.host| + 1, "", false, false, u);
    assert Slice(t, |u.host| + 1, |u.host| + 1 + |u.port|) == u.port;
    PortStateRead(t, Some(Host), None, n, u.port);
    PortEnd(t, Some(Host), n.(cursor := |t|, buffer := u.port));
  }

  lemma HostBackWithPort(u: Url)
    requires Sound(u) && !u.invalid && u.relative && u.port != "" && HostReadable(u)
    ensures WriteHost(u) == Done(u)
  {
    hide Run, ColonsBracketed, OpenBracket, AllHost, GoodPort, GoodUser, GoodPassword, GoodPath, GoodQuery,
      GoodFragment;
    assert HostText(u) == u.host + ":" + u.port;
    assert u.(host := u.host) == u;
    HostThenColon(u, u.host, u.port);
    PortTail(u);
  }

  lemma BrokenText(u: Url, k: nat) returns (rest: string)
    requires Sound(u) && !u.invalid && k == FirstColon(u.host) < |u.host|
    ensures HostText(u) == u.host[..k] + ":" + rest
    ensures AllHost(u.host[..k]) && ColonsBracketed(u.host[..k]) && !OpenBracket(u.host[..k])
  {
    hide ColonsBracketed, OpenBracket;
    var t := HostText(u);
    rest := t[k + 1..];
    assert t[..k] == u.host[..k] && t[k] == ':';
    assert t == t[..k] + [t[k]] + t[k + 1..];
  }

  lemma HostBackBroken(u: Url, k: nat)
    requires Sound(u) && !u.invalid && u.relative && k == FirstColon(u.host) < |u.host|
    ensures WriteHost(u) != Done(u)
  {
    var t := HostText(u);
    var host := u.host[..k];
    hide Run, Sound, AllHost, ColonsBracketed, OpenBracket, FirstColon, HostText;
    var rest := BrokenText(u, k);
    HostThenColon(u, host, rest);
    assert |Lower(host)| < |u.host|;
    if host != "" {
      PortRun(t, Some(Host), Config(Port, |host| + 1, "", false, false, u.(host := Lower(host))));
    }
  }

  /** With its last bracket open, a host swallows the port. */
  lemma Swallows(host: string, port: string)
    requires AllHost(host) && ColonsBracketed(host) && OpenBracket(host) && AllDigits(port)
    ensures AllHost(host + ":" + port) && ColonsBracketed(host + ":" + port)
  {
    hide OpenBracket;
    var t := host + ":" + port;
    forall i | 0 <= i < |t| && t[i] == ':' ensures OpenBracket(t[..i]) {
      if i < |host| { assert t[..i] == host[..i]; }
      else { assert i == |host| && t[..i] == host; }
    }
  }

  lemma HostBackSwallowed(u: Url)
    requires Sound(u) && !u.invalid && u.relative && u.port != "" && ColonsBracketed(u.host) && OpenBracket(u.host)
    ensures WriteHost(u) != Done(u)
  {
    hide Run, ColonsBracketed, OpenBracket, AllHost, AllDigits, GoodUser, GoodPassword, GoodPath, GoodQuery,
      GoodFragment;
    var t := u.host + ":" + u.port;
    Swallows(u.host, u.port);
    WholeHost(u, t);
    assert |Lower(t)| > |u.host|;
  }

  /** Assigning host its own value changes nothing, exactly when the host is readable. */
  lemma HostWriteBack(u: Url)
    requires Sound(u) && !u.invalid && u.relative
    ensures WriteHost(u) == Done(u) <==> HostReadable(u)
  {
    if !ColonsBracketed(u.host) {
      HostBackBroken(u, FirstColon(u.host));
    } else if u.port == "" {
      assert AllHost(u.host) && Lower(u.host) == u.host && HostText(u) == u.host;
      hide Run;
      WholeHost(u, u.host);
    } else if OpenBracket(u.host) {
      HostBackSwallowed(u);
    } else if u.host != "" {
      HostBackWithPort(u);
    } else {
      assert HostText(u) == "" + ":" + u.port;
      hide Run;
      HostThenColon(u, "", u.port);
    }
  }

  /** Assigning port its own value always changes nothing. */
  lemma PortWriteBack(u: Url)
    requires Sound(u) && !u.invalid && u.relative
    ensures Apply(u, SetPort(u.port)) == Done(u)
  {
    hide Run, GoodPort, GoodUser, GoodPassword, GoodPath, GoodQuery, GoodFragment, GoodHost;
    var t := u.port;
    var m := Start(Some(Port), u);
    assert Slice(t, 0, |t|) == t;
    PortStateRead(t, Some(Port), None, m, t);
    PortEnd(t, Some(Port), m.(cursor := |t|, buffer := t));
  }

  /** The getters `search` and `hash`. */
  function Search(u: Url): string { if u.invalid || u.query == "?" then "" else u.query }

  function Hash(u: Url): string { if u.invalid || u.fragment == "#" then "" else u.fragment }

  lemma QueryRun(u: Url, text: string)
    requires !u.invalid && u.relative && forall i :: 0 <= i < |text| ==> QueryPlain(text[i])
    ensures Parse(text, Some(Query), None, u.(query := "?")) == Done(u.(query := "?" + text))
  {
    hide Run;
    var m := Start(Some(Query), u.(query := "?"));
    assert Slice(text, 0, |text|) == text;
    QueryScan(text, Some(Query), None, m, |text|);
    EndRound(text, Some(Query), None, m.(cursor := |text|, u := u.(query := "?" + text)));
  }

  /** Assigning search its own value changes nothing, exactly when there is a query mark: an
      object without a query gets an empty one. */
  lemma SearchWriteBack(u: Url)
    requires Sound(u) && !u.invalid && u.relative
    ensures Apply(u, SetSearch(Search(u))) == Done(u) <==> u.query != ""
  {
    var text := Strip(Search(u), '?');
    assert u.query != "" ==> "?" + text == u.query;
    hide Parse;
    QueryRun(u, text);
  }

  /** Assigning hash its own value changes nothing, exactly when there is a fragment mark. */
  lemma HashWriteBack(u: Url)
    requires Sound(u) && !u.invalid
    ensures Apply(u, SetHash(Hash(u))) == Done(u) <==> u.fragment != ""
  {
    var text := Strip(Hash(u), '#');
    var m := Start(Some(Fragment), u.(fragment := "#"));
    assert Slice(text, 0, |text|) == text;
    assert u.fragment != "" ==> "#" + text == u.fragment;
    assert forall i :: 0 <= i < |text| ==> text[i] == Hash(u)[i + 1] && !IsTabOrNewline(text[i]);
    hide Run;
    SqueezeSame(text);
    FragmentScan(text, Some(Fragment), None, m);
  }

  /** The hostname setter on a text with a whole host up to k: what follows a bare colon is not looked at. */
  lemma HostnameRead(u: Url, t: string, k: nat)
    requires !u.invalid && u.relative && k <= |t| && AllHost(t[..k]) && ColonsBracketed(t[..k])
    requires k == |t| || (t[k] == ':' && !OpenBracket(t[..k]))
    ensures Apply(u, SetHostname(t)) == Done(WithHost(u, t[..k]))
  {
    var host := t[..k];
    var m := Start(Some(Hostname), u);
    var n := m.(cursor := k, buffer := host, seenBracket := OpenBracket(host));
    assert Slice(t, 0, k) == host;
    hide Run, WithHost, Slice, AllHost, ColonsBracketed, OpenBracket;
    HostStateRead(t, Some(Hostname), None, m, host);
    assert InLoop(t, n);
    BreakRound(t, Some(Hostname), None, n, WithHost(u, host));
  }

  /** Assigning hostname its own value changes nothing, exactly when the host is not empty and its colons are
      bracketed. */
  lemma HostnameWriteBack(u: Url)
    requires Sound(u) && !u.invalid && u.relative
    ensures Apply(u, SetHostname(u.host)) == Done(u) <==> u.host != "" && ColonsBracketed(u.host)
  {
    var k := FirstColon(u.host);
    assert AllHost(u.host[..k]) && Lower(u.host) == u.host && u.host[..|u.host|] == u.host;
    hide Apply, ColonsBracketed, OpenBracket, AllHost, FirstColon, Sound;
    HostnameRead(u, u.host, k);
    assert |Lower(u.host[..k])| == k;
  }

  /** The protocol setter on a scheme, with or without a colon and more after it. */
  lemma ProtocolRead(u: Url, scheme: string, rest: string)
    requires !u.invalid && GoodScheme(scheme) && (rest != "" ==> rest[0] == ':')
    ensures Apply(u, SetProtocol(scheme + rest)) == Done(u.(scheme := scheme))
  {
    var t := scheme + rest + ":";
    var m := Start(Some(SchemeStart), u);
    var n := m.(state := Scheme, cursor := 1, buffer := scheme[..1]);
    var e := n.(cursor := |scheme|, buffer := scheme);
    assert forall i :: 0 <= i < |scheme| ==> t[i] == scheme[i] && LowerChar(t[i]) == t[i] && SchemeChar(t[i]);
    assert t[|scheme|] == ':' && scheme[..1] == [scheme[0]];
    assert scheme[..1] + Lower(Slice(t, 1, |scheme|)) == scheme;
    hide Run, GoodScheme, Lower, Slice;
    Round(t, Some(SchemeStart), None, m, n);
    SchemeScan(t, Some(SchemeStart), None, n, |scheme|);
    BreakRound(t, Some(SchemeStart), None, e, u.(scheme := scheme));
  }

  /** On a printable URL, assigning protocol its own value changes nothing. */
  lemma ProtocolWriteBack(u: Url)
    requires Printable(u)
    ensures Apply(u, SetProtocol(u.scheme + ":")) == Done(u)
  {
    assert GoodScheme(u.scheme) && !u.invalid;
    hide Parse, Printable;
    ProtocolRead(u, u.scheme, ":");
  }

  /** Assigning href its own value changes nothing, exactly when the object is printable. The setter trims nothing,
      so these are more objects than the canonical ones. */
  lemma HrefWriteBack(u: Url, text: string)
    requires !u.invalid
    ensures Apply(u, SetHref(Href(u, text))) == Done(u) <==> Printable(u)
  {
    hide Run, Href, Printable, Canonical, OnTheWay;
    StartOnTheWay(Href(u, text), None);
    RunCanonical(Href(u, text), None, Start(None, BLANK));
    if Printable(u) { PrintedRead(u, text, None); }
  }

  /** On a canonical URL that is not a file URL, assigning pathname, host or port its own value
      changes nothing. */
  lemma CanonicalWriteBack(u: Url)
    requires Canonical(u) && u.relative && !IsFile(u.scheme)
    ensures WritePathname(u) == Done(u) && WriteHost(u) == Done(u) && Apply(u, SetPort(u.port)) == Done(u)
  {
    assert Sound(u) && HostReadable(u) && PathReadable(u);
    hide Sound, Canonical, Apply;
    PathnameWriteBack(u);
    HostWriteBack(u);
    PortWriteBack(u);
  }

  /** Two calls lead from a printed text to a URL that is valid, hierarchical and no file URL, and whose host
      cannot be written back. */
  lemma HostLost()
    ensures var u := Head("file").(path := ["x"]);
      var v := u.(scheme := "http");
      && Construct("file:///x", None) == Done(u) && Apply(u, SetProtocol("http")) == Done(v)
      && Apply(v, SetHost(HostText(v))) == Done(INVALID)
  {
    var u := Head("file").(path := ["x"]);
    var v := u.(scheme := "http");
    CanonicalX(u);
    assert GoodScheme("http") && HostText(v) == "" && "http" + "" == "http";
    hide Canonical, Apply, Href, Construct;
    ParseHref(u, "", None);
    ProtocolRead(u, "http", "");
    WholeHost(v, "");
  }

  lemma CanonicalX(u: Url)
    requires u == Head("file").(path := ["x"])
    ensures Canonical(u) && Href(u, "") == "file:///x"
  {
    assert Lower("x") == "x" && Lower("") == "" && GoodSegment("x");
    assert Join(["x"], '/') == "x";
    hide GoodSegment;
  }

  /** Two calls lead from a printed text to a file URL whose path changes when it is written back. */
  lemma DriveLost()
    ensures var u := Head("http").(host := "h", path := ["c|"]);
      var v := u.(scheme := "file");
      && Construct("http://h/c|", None) == Done(u) && Apply(u, SetProtocol("file")) == Done(v)
      && PathText(v) == "/c|" && WritePathname(v) == Done(v.(path := ["c:"]))
  {
    var u := Head("http").(host := "h", path := ["c|"]);
    var v := u.(scheme := "file");
    CanonicalPipe(u);
    assert GoodScheme("file") && "file" + "" == "file" && PathText(v) == "/c|";
    PipeRead(v);
    hide Canonical, Apply, Href, Construct;
    ParseHref(u, "", None);
    ProtocolRead(u, "file", "");
  }

  lemma CanonicalPipe(u: Url)
    requires u == Head("http").(host := "h", path := ["c|"])
    ensures Canonical(u) && Href(u, "") == "http://h/c|"
  {
    assert Lower("h") == "h" && Lower("") == "" && GoodSegment("c|");
    assert Join(["c|"], '/') == "c|";
    hide GoodSegment;
  }

  lemma PipeRead(v: Url)
    requires v == Head("file").(host := "h", path := ["c|"])
    ensures Apply(v, SetPathname("/c|")) == Done(v.(path := ["c:"]))
  {
    hide GoodSegment, Apply, PushSegments, Undot;
    PipePush();
    assert Join(["c|"], '/') == "c|" && "/" + "c|" == "/c|" && IsFile(v.scheme);
    PathnameRead(v, ["c|"]);
  }

  lemma PipePush()
    ensures GoodSegment("c|") && PushSegments(true, [], ["c|"]) == ["c:"]
  {
    assert Undot("c|") == "c|";
  }

  // ---------- when a host setter invalidates ----------

  /** Nothing stands before the end of the host, tabs and line ends aside. */
  predicate NoHost(t: string) {
    t == "" || IsDelimiter(t[0]) || t[0] == ':' || (IsTabOrNewline(t[0]) && NoHost(t[1..]))
  }

  lemma {:induction false} HostStays(t: string, ov: Option<State>, m: Config)
    requires (m.state == Host && ov == Some(Host)) || (m.state == Hostname && ov == Some(Hostname))
    requires m.buffer != "" && !m.u.invalid
    ensures !Run(t, ov, None, m).u.invalid
    decreases |t| + 1 - m.cursor
  {
    if InLoop(t, m) {
      StepProgress(t, ov, None, m);
      var r := Step(t, ov, None, m);
      assert r.Next? ==> !r.next.u.invalid && (r.next.state == m.state ==> r.next.buffer != "");
      assert r.Next? && r.next.state != m.state ==> r.next.state == Port;
      assert !r.Next? ==> r.Break? && !r.u.invalid;
      hide Step;
      if r.Next? {
        if r.next.state == Port { hide Run; PortRun(t, ov, r.next); }
        else { HostStays(t, ov, r.next); }
      }
    }
  }

  lemma NoHostStep(t: string, ov: Option<State>, m: Config)
    requires (m.state == Host && ov == Some(Host)) || (m.state == Hostname && ov == Some(Hostname))
    requires m.buffer == "" && !m.seenBracket && 0 <= m.cursor <= |t| && !m.u.invalid
    ensures var r := Step(t, ov, None, m);
            && (m.cursor == |t| || IsDelimiter(t[m.cursor]) || t[m.cursor] == ':' ==>
                  Object(r).invalid && (r.Next? ==> !InLoop(t, r.next)) && !r.Throw? && !r.Overflow?)
            && (m.cursor < |t| && IsTabOrNewline(t[m.cursor]) ==> r == Next(m.(cursor := m.cursor + 1)))
            && (m.cursor < |t| && !IsTabOrNewline(t[m.cursor]) && !IsDelimiter(t[m.cursor]) && t[m.cursor] != ':' ==>
                  r.Next? && r.next.state == m.state && r.next.buffer != "" && r.next.u == m.u)
  {}

  lemma {:induction false} NoHostRun(t: string, ov: Option<State>, m: Config)
    requires (m.state == Host && ov == Some(Host)) || (m.state == Hostname && ov == Some(Hostname))
    requires m.buffer == "" && !m.seenBracket && 0 <= m.cursor <= |t| && !m.u.invalid
    ensures Run(t, ov, None, m).u.invalid <==> NoHost(t[m.cursor..])
    decreases |t| - m.cursor
  {
    NoHostStep(t, ov, m);
    assert m.cursor < |t| ==> t[m.cursor..][0] == t[m.cursor] && t[m.cursor..][1..] == t[m.cursor + 1..];
    assert InLoop(t, m);
    var r := Step(t, ov, None, m);
    hide Step, InLoop;
    if m.cursor < |t| && IsTabOrNewline(t[m.cursor]) {
      assert Run(t, ov, None, m) == Run(t, ov, None, r.next);
      NoHostRun(t, ov, r.next);
    } else if m.cursor < |t| && !IsDelimiter(t[m.cursor]) && t[m.cursor] != ':' {
      assert Run(t, ov, None, m) == Run(t, ov, None, r.next);
      HostStays(t, ov, r.next);
    }
  }

  /** A host setter invalidates the object exactly when its text holds no host. */
  lemma HostInvalidates(u: Url, t: string)
    requires !u.invalid && u.relative
    ensures Apply(u, SetHost(t)).u.invalid <==> NoHost(t)
    ensures Apply(u, SetHostname(t)).u.invalid <==> NoHost(t)
  {
    assert t[0..] == t;
    hide Run, NoHost;
    NoHostRun(t, Some(Host), Start(Some(Host), u));
    NoHostRun(t, Some(Hostname), Start(Some(Hostname), u));
  }
}
