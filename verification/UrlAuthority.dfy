/** The authority state, whose end moves the cursor back to the host. */
module UrlAuthority {
  import opened Wrappers
  import opened Text
  import opened UrlMachine
  import opened UrlInvariant
  import opened UrlScan

  /** Where the host starts in an authority: after its last '@', or at its start. */
  function HostStart(t: string): (h: nat)
    ensures h <= |t| && '@' !in t[h..]
    ensures h == 0 || t[h - 1] == '@'
    decreases |t|
  {
    var k := Find(t, '@');
    if k == |t| then 0
    else
      var rest := HostStart(t[k + 1..]);
      assert t[k + 1..][rest..] == t[k + 1 + rest..];
      k + 1 + rest
  }

  /** The user information in an authority: the text before each '@', with "%40" for every
      '@' but the last. */
  function ReadUser(username: string, password: Option<string>, seenAt: bool, t: string): (string, Option<string>)
    decreases |t|
  {
    var k := Find(t, '@');
    if k == |t| then (username, password)
    else
      var (n, p) := UserInfo(username, password, if seenAt then t[..k] + "%40" else t[..k]);
      ReadUser(n, p, true, t[k + 1..])
  }

  lemma AuthorityRound(input: string, ov: Option<State>, base: Option<Url>, m: Config)
    requires m.state == Authority && 0 <= m.cursor < |input| && !m.u.invalid && AuthorityChar(input[m.cursor])
    ensures Run(input, ov, base, m) ==
            Run(input, ov, base, m.(cursor := m.cursor + 1, buffer := m.buffer + [input[m.cursor]]))
  {
    Round(input, ov, base, m, m.(cursor := m.cursor + 1, buffer := m.buffer + [input[m.cursor]]));
  }

  lemma {:induction false} AuthorityScan(input: string, ov: Option<State>, base: Option<Url>, m: Config, j: int)
    requires m.state == Authority && 0 <= m.cursor <= j <= |input| && !m.u.invalid
    requires forall i :: m.cursor <= i < j ==> AuthorityChar(input[i])
    ensures Run(input, ov, base, m) ==
            Run(input, ov, base, m.(cursor := j, buffer := m.buffer + Slice(input, m.cursor, j)))
    decreases j - m.cursor
  {
    hide Run;
    if m.cursor < j {
      var n := m.(cursor := m.cursor + 1, buffer := m.buffer + [input[m.cursor]]);
      AuthorityRound(input, ov, base, m);
      SliceSplit(input, m.cursor, j, m.buffer);
      AuthorityScan(input, ov, base, n, j);
    } else {
      assert m.buffer + Slice(input, m.cursor, j) == m.buffer;
    }
  }

  /** The machine after an '@' has ended the user information b. */
  function AfterAt(m: Config, b: string): Config {
    var (n, p) := UserInfo(m.u.username, m.u.password, if m.seenAt then b + "%40" else b);
    m.(cursor := m.cursor + |b| + 1, seenAt := true, u := m.u.(username := n, password := p))
  }

  lemma AtRounds(input: string, ov: Option<State>, base: Option<Url>, m: Config, b: string)
    requires m.state == Authority && m.buffer == "" && 0 <= m.cursor && !m.u.invalid
    requires m.cursor + |b| < |input| && input[m.cursor + |b|] == '@'
    requires Slice(input, m.cursor, m.cursor + |b|) == b
    requires forall i :: m.cursor <= i < m.cursor + |b| ==> AuthorityChar(input[i])
    ensures Run(input, ov, base, m) == Run(input, ov, base, AfterAt(m, b))
  {
    AuthorityScan(input, ov, base, m, m.cursor + |b|);
    assert m.buffer + b == b;
    hide UserInfo, Slice;
    Round(input, ov, base, m.(cursor := m.cursor + |b|, buffer := b), AfterAt(m, b));
  }

  /** At the start of the rest of an authority, which ends at e. */
  predicate AuthorityAhead(input: string, m: Config, e: int) {
    && m.state == Authority && m.buffer == "" && !m.u.invalid
    && 0 <= m.cursor <= e <= |input| && EndsPart(At(input, e))
    && forall i :: m.cursor <= i < e ==> !IsDelimiter(input[i])
  }

  lemma ChunkChars(input: string, m: Config, e: int)
    requires AuthorityAhead(input, m, e)
    ensures var t := Slice(input, m.cursor, e);
            var k := Find(t, '@');
            && |t| == e - m.cursor
            && Slice(input, m.cursor, m.cursor + k) == t[..k]
            && (k < |t| ==> input[m.cursor + k] == '@' && Slice(input, m.cursor + k + 1, e) == t[k + 1..])
            && forall i :: m.cursor <= i < m.cursor + k ==> AuthorityChar(input[i])
  {
    hide Find, IsDelimiter;
    var t := Slice(input, m.cursor, e);
    var k := Find(t, '@');
    assert Slice(input, m.cursor, m.cursor + k) == t[..k];
    forall i | m.cursor <= i < m.cursor + k ensures AuthorityChar(input[i]) {
      assert t[..k][i - m.cursor] == input[i];
    }
  }

  lemma AuthorityMore(input: string, ov: Option<State>, base: Option<Url>, m: Config, e: int, b: string)
    requires AuthorityAhead(input, m, e)
    requires var t := Slice(input, m.cursor, e); Find(t, '@') < |t| && b == t[..Find(t, '@')]
    ensures Run(input, ov, base, m) == Run(input, ov, base, AfterAt(m, b))
    ensures AuthorityAhead(input, AfterAt(m, b), e)
    ensures Slice(input, AfterAt(m, b).cursor, e) == Slice(input, m.cursor, e)[|b| + 1..]
  {
    hide Run, UserInfo, Find, Slice;
    ChunkChars(input, m, e);
    AtRounds(input, ov, base, m, b);
  }

  /** The end of the authority: back to the first character after the last '@'. */
  lemma AuthorityLast(input: string, ov: Option<State>, base: Option<Url>, m: Config, e: int)
    requires AuthorityAhead(input, m, e)
    requires var t := Slice(input, m.cursor, e); Find(t, '@') == |t|
    ensures Run(input, ov, base, m) == Run(input, ov, base, m.(state := Host))
  {
    ChunkChars(input, m, e);
    AuthorityScan(input, ov, base, m, e);
    var n := m.(cursor := e, buffer := m.buffer + Slice(input, m.cursor, e));
    assert |n.buffer| == e - m.cursor;
    Round(input, ov, base, n, m.(state := Host));
  }

  /** The machine at the host, when the authority t has been read from m. */
  function AtHost(m: Config, t: string): Config {
    var (n, p) := ReadUser(m.u.username, m.u.password, m.seenAt, t);
    m.(state := Host, cursor := m.cursor + HostStart(t), seenAt := m.seenAt || '@' in t,
       u := m.u.(username := n, password := p))
  }

  lemma AfterFirstAt(username: string, password: Option<string>, seenAt: bool, t: string, k: int)
    requires k == Find(t, '@') < |t|
    ensures '@' in t && HostStart(t) == k + 1 + HostStart(t[k + 1..])
    ensures var (n, p) := UserInfo(username, password, if seenAt then t[..k] + "%40" else t[..k]);
            ReadUser(username, password, seenAt, t) == ReadUser(n, p, true, t[k + 1..])
  {
    hide UserInfo, Find;
    assert t[k] == '@';
  }

  lemma AtHostLast(m: Config, t: string)
    requires m.buffer == "" && Find(t, '@') == |t|
    ensures AtHost(m, t) == m.(state := Host)
  {
    assert t[..|t|] == t;
    hide Find;
  }

  lemma AtHostMore(m: Config, t: string, k: int)
    requires m.buffer == "" && k == Find(t, '@') < |t|
    ensures AtHost(AfterAt(m, t[..k]), t[k + 1..]) == AtHost(m, t)
  {
    hide UserInfo, Find, ReadUser, HostStart;
    AfterFirstAt(m.u.username, m.u.password, m.seenAt, t, k);
  }

  lemma AheadBounds(input: string, m: Config, e: int)
    requires AuthorityAhead(input, m, e)
    ensures m.buffer == "" && 0 <= m.cursor <= e <= |input|
  {}

  /** An authority as a whole, from its start to the character that ends it: the cursor lands
      right after the last '@', or at the start, with the user information read. */
  lemma {:induction false} AuthorityToHost(input: string, ov: Option<State>, base: Option<Url>, m: Config, e: int)
    requires AuthorityAhead(input, m, e)
    ensures Run(input, ov, base, m) == Run(input, ov, base, AtHost(m, Slice(input, m.cursor, e)))
    decreases |input| - m.cursor
  {
    hide Run, AtHost, Find, UserInfo, AuthorityAhead;
    AheadBounds(input, m, e);
    var t := Slice(input, m.cursor, e);
    var k := Find(t, '@');
    if k == |t| {
      AuthorityLast(input, ov, base, m, e);
      AtHostLast(m, t);
    } else {
      AtHostMore(m, t, k);
      AuthorityMore(input, ov, base, m, e, t[..k]);
      AuthorityToHost(input, ov, base, AfterAt(m, t[..k]), e);
    }
  }
}
