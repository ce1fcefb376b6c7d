/** Where the cursor can be, and how long the loop can run. */
module UrlCursor {
  import opened Wrappers
  import opened Text
  import opened UrlMachine
  import opened UrlInvariant

  /** The cursor does not leave the input by more than one, a rewind stays inside, and without
      an override only the last states step over the end of input. */
  predicate Placed(input: string, ov: Option<State>, m: Config) {
    && 0 <= m.cursor <= |input| + 1
    && (m.state == Authority ==> |m.buffer| <= m.cursor)
    && (ov.None? && m.cursor == |input| + 1 && !m.u.invalid ==> m.state in {SchemeData, RelativePath, Query, Fragment})
  }

  lemma RelativePlaced(input: string, ov: Option<State>, base: Option<Url>, m: Config)
    requires m.state == Relative && Placed(input, ov, m) && InLoop(input, m)
    ensures var r := StepRelative(base, m, At(input, m.cursor), At(input, m.cursor + 1), At(input, m.cursor + 2));
            r.Next? ==> Placed(input, ov, r.next)
  {
    hide Inherit, PopLast, IsFile, StartsWithDrive;
  }

  lemma FrontPlaced(input: string, ov: Option<State>, base: Option<Url>, m: Config)
    requires Rank(m.state) >= 12 && m.state != Relative && Placed(input, ov, m) && InLoop(input, m)
    ensures var r := Step(input, ov, base, m); r.Next? ==> Placed(input, ov, r.next)
  {
    hide StepRelative, IsFile, IsRelativeScheme, SchemeChar;
  }

  lemma AuthorityPlaced(input: string, ov: Option<State>, base: Option<Url>, m: Config)
    requires 7 <= Rank(m.state) < 12 && Placed(input, ov, m) && InLoop(input, m) && Ready(m)
    ensures var r := Step(input, ov, base, m); r.Next? ==> Placed(input, ov, r.next)
  {
    hide UserInfo, WithHost, IsDrive;
  }

  lemma PathPlaced(input: string, ov: Option<State>, m: Config)
    requires m.state == RelativePath && Placed(input, ov, m) && InLoop(input, m)
    ensures var r := StepRelativePath(ov, m, At(input, m.cursor)); r.Next? ==> Placed(input, ov, r.next)
  {
    hide PushSegment, PercentEscape, IsTabOrNewline, IsFile;
  }

  lemma TailPlaced(input: string, ov: Option<State>, base: Option<Url>, m: Config)
    requires Rank(m.state) < 7 && Placed(input, ov, m) && InLoop(input, m)
    ensures var r := Step(input, ov, base, m); r.Next? ==> Placed(input, ov, r.next)
  {
    if m.state == RelativePath { PathPlaced(input, ov, m); }
    hide StepRelativePath, PushSegment, ParseNat, Decimal, DefaultPort, PercentEscape, PercentEscapeQuery,
      IsTabOrNewline, AllDigits;
  }

  lemma RelativePlacedStep(input: string, ov: Option<State>, base: Option<Url>, m: Config)
    requires m.state == Relative && Placed(input, ov, m) && InLoop(input, m)
    ensures var r := Step(input, ov, base, m); r.Next? ==> Placed(input, ov, r.next)
  {
    hide StepRelative, Placed;
    RelativePlaced(input, ov, base, m);
  }

  lemma StepPlaced(input: string, ov: Option<State>, base: Option<Url>, m: Config)
    requires Placed(input, ov, m) && InLoop(input, m) && Ready(m)
    ensures var r := Step(input, ov, base, m); r.Next? ==> Placed(input, ov, r.next)
  {
    hide Step, Placed, Ready;
    if m.state == Relative { RelativePlacedStep(input, ov, base, m); }
    else if Rank(m.state) >= 12 { FrontPlaced(input, ov, base, m); }
    else if Rank(m.state) >= 7 { AuthorityPlaced(input, ov, base, m); }
    else { TailPlaced(input, ov, base, m); }
  }

  // ---------- whole runs ----------

  /** The configurations at the start of successive rounds of one parse. */
  ghost predicate IsTrace(input: string, ov: Option<State>, base: Option<Url>, ms: seq<Config>) {
    && (forall i :: 0 <= i < |ms| ==> InLoop(input, ms[i]))
    && (forall i :: 0 < i < |ms| ==> Step(input, ov, base, ms[i - 1]) == Next(ms[i]))
  }

  /** State rank and remaining input as one number. */
  function Fuel(input: string, m: Config): int {
    Rank(m.state) * (|input| + 2) + (|input| + 1 - m.cursor)
  }

  lemma FuelFalls(input: string, ov: Option<State>, m: Config, n: Config)
    requires Placed(input, ov, m) && Placed(input, ov, n) && Progress(m, Next(n))
    ensures 0 <= Fuel(input, n) < Fuel(input, m)
  {
    hide Rank;
    if Rank(n.state) < Rank(m.state) { Scaled(Rank(n.state), Rank(m.state), |input| + 2); }
  }

  lemma Scaled(a: nat, b: nat, w: nat)
    requires a < b
    ensures 0 <= a * w && a * w + w <= b * w
  {
    if b > a + 1 { Scaled(a, b - 1, w); }
    assert b * w == (b - 1) * w + w;
  }

  /** Every round of every parse has its cursor in place, and the fuel falls from round to round. */
  lemma {:induction false} TraceRounds(input: string, ov: Option<State>, base: Option<Url>, u: Url, ms: seq<Config>)
    requires IsTrace(input, ov, base, ms) && ms != [] && ms[0] == Start(ov, u)
    requires Ready(Start(ov, u)) && Placed(input, ov, Start(ov, u))
    ensures forall i :: 0 <= i < |ms| ==> Placed(input, ov, ms[i]) && Ready(ms[i])
    ensures 0 <= Fuel(input, ms[|ms| - 1]) <= 19 * (|input| + 2) - |ms|
    decreases |ms|
  {
    var k := |ms| - 1;
    hide Step, Ready;
    if k > 0 {
      var init := ms[..k];
      TraceRounds(input, ov, base, u, init);
      hide Placed, Fuel;
      StepPlaced(input, ov, base, ms[k - 1]);
      StepReady(input, ov, base, ms[k - 1]);
      StepProgress(input, ov, base, ms[k - 1]);
      FuelFalls(input, ov, ms[k - 1], ms[k]);
      assert forall i :: 0 <= i < k ==> ms[i] == init[i];
    }
  }

  /** The states in which the constructor and the setters start. */
  predicate Entry(ov: Option<State>, u: Url) {
    ov in {None, Some(SchemeStart), Some(Host), Some(Hostname), Some(Port), Some(RelativePathStart)}
    || (ov == Some(Query) && u.query != "") || (ov == Some(Fragment) && u.fragment != "")
  }

  /** A parse takes at most 19 * (n + 2) rounds on n characters, whatever it rewinds; before each
      round the cursor is within the input or one past it. */
  lemma ParseRounds(input: string, ov: Option<State>, base: Option<Url>, u: Url, ms: seq<Config>)
    requires Entry(ov, u) && IsTrace(input, ov, base, ms) && ms != [] && ms[0] == Start(ov, u)
    ensures |ms| <= 19 * (|input| + 2)
    ensures forall i :: 0 <= i < |ms| ==> 0 <= ms[i].cursor <= |input|
  {
    TraceRounds(input, ov, base, u, ms);
    forall i | 0 <= i < |ms| ensures 0 <= ms[i].cursor <= |input| {
      assert Placed(input, ov, ms[i]) && InLoop(input, ms[i]);
    }
  }
}
