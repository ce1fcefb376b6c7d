/** Places of the application as history tokens: "!", the path, and parameters in parentheses. */
module Places {
  import opened Wrappers
  import opened Splitters
  import Text

  type Params = seq<(string, string)>

  datatype Parsed = Parsed(parts: seq<string>, params: Params)

  // ---------- generating ----------

  predicate PathChar(c: char) { c != '/' && c != '(' && c != ')' }

  predicate ParamChar(c: char) { c != '=' && c != ',' }

  predicate PathSafe(s: string) { forall i :: 0 <= i < |s| ==> PathChar(s[i]) }

  predicate ParamSafe(s: string) { forall i :: 0 <= i < |s| ==> ParamChar(s[i]) }

  function Entry(p: (string, string)): string { p.0 + "=" + p.1 }

  function Entries(params: Params): (r: seq<string>)
    ensures |r| == |params| && forall i :: 0 <= i < |params| ==> r[i] == Entry(params[i])
  {
    seq(|params|, i requires 0 <= i < |params| => Entry(params[i]))
  }

  /** The checks of the generator. */
  predicate Representable(parts: seq<string>, params: Params) {
    (forall p :: p in parts ==> PathSafe(p)) && forall e :: e in params ==> ParamSafe(e.0) && ParamSafe(e.1)
  }

  function Token(parts: seq<string>, params: Params): string {
    "!" + Text.Join(parts, '/') +
    if params == [] then "" else "(" + Text.Join(Entries(params), ',') + ")"
  }

  /** Checks all parts and parameters, then fills the builder; none stands for the failed check. */
  method GenerateUrlTokenFor(parts: seq<string>, params: Params) returns (token: Option<string>)
    ensures token == if Representable(parts, params) then Some(Token(parts, params)) else None
  {
    var i := 0;
    while i < |parts|
      invariant i <= |parts| && forall p :: p in parts[..i] ==> PathSafe(p)
    {
      assert parts[i] in parts;
      if !PathSafe(parts[i]) { return None; }
      i := i + 1;
    }
    assert parts[..i] == parts;
    i := 0;
    while i < |params|
      invariant i <= |params| && forall e :: e in params[..i] ==> ParamSafe(e.0) && ParamSafe(e.1)
    {
      assert params[i] in params;
      if !ParamSafe(params[i].0) || !ParamSafe(params[i].1) { return None; }
      i := i + 1;
    }
    assert params[..i] == params;
    var builder := "!" + Text.Join(parts, '/');
    if params != [] {
      builder := builder + "(";
      builder := builder + Text.Join(Entries(params), ',');
      builder := builder + ")";
    }
    assert builder == Token(parts, params);
    token := Some(builder);
  }

  // ---------- parsing ----------

  predicate HasKey(params: Params, key: string) { exists i :: 0 <= i < |params| && params[i].0 == key }

  /** Reads entries in order; none when one is not key=value, or repeats a key. */
  function ParseEntries(entries: seq<string>): Option<Params> {
    if entries == [] then Some([])
    else
      var before := ParseEntries(entries[..|entries| - 1]);
      var fields := Text.Split(entries[|entries| - 1], '=');
      if before.None? || |fields| != 2 || HasKey(before.value, fields[0]) then None
      else Some(before.value + [(fields[0], fields[1])])
  }

  function ParseParams(s: string): Option<Params> {
    ParseEntries(NonEmpty(TrimAll(Text.Split(s, ','))))
  }

  function ParsePath(s: string): seq<string> { NonEmpty(Text.Split(s, '/')) }

  /** The parts and parameters of a token, as handed to the representation; none when the token is refused. */
  function ParseToken(token: string): Option<Parsed> {
    if token == "" || token[0] != '!' then None
    else
      var url := token[1..];
      var index := Text.Find(url, '(');
      if index == |url| then Some(Parsed(ParsePath(url), []))
      else if index == 0 || url[|url| - 1] != ')' then None
      else
        match ParseParams(url[index + 1..|url| - 1])
        case None => None
        case Some(params) => Some(Parsed(ParsePath(url[..index]), params))
  }

  // ---------- what comes back ----------

  function Trimmed(params: Params): (r: Params)
    ensures |r| == |params|
    ensures forall i :: 0 <= i < |params| ==> r[i] == (TrimLeft(params[i].0), TrimRight(params[i].1))
  {
    seq(|params|, i requires 0 <= i < |params| => (TrimLeft(params[i].0), TrimRight(params[i].1)))
  }

  predicate DistinctKeys(params: Params) {
    forall i, j :: 0 <= i < j < |params| ==> params[i].0 != params[j].0
  }

  lemma {:induction false} TrimLeftStops(a: string, b: string)
    requires b != "" && !Blank(b[0])
    ensures TrimLeft(a + b) == TrimLeft(a) + b
  {
    if a == "" {
      assert a + b == b;
    } else {
      assert (a + b)[1..] == a[1..] + b;
      TrimLeftStops(a[1..], b);
    }
  }

  lemma {:induction false} TrimRightStops(a: string, b: string)
    requires a != "" && !Blank(a[|a| - 1])
    ensures TrimRight(a + b) == a + TrimRight(b)
  {
    if b == "" {
      assert a + b == a;
    } else {
      assert (a + b)[..|a + b| - 1] == a + b[..|b| - 1];
      TrimRightStops(a, b[..|b| - 1]);
    }
  }

  /** Trimming an entry trims its key on the left and its value on the right. */
  lemma TrimEntry(k: string, v: string)
    ensures Trim(Entry((k, v))) == Entry((TrimLeft(k), TrimRight(v)))
  {
    assert k + "=" + v == k + ("=" + v);
    TrimLeftStops(k, "=" + v);
    assert TrimLeft(k) + ("=" + v) == (TrimLeft(k) + "=") + v;
    TrimRightStops(TrimLeft(k) + "=", v);
  }

  lemma TrimLeftChars(s: string)
    requires ParamSafe(s)
    ensures ParamSafe(TrimLeft(s))
  {
  }

  lemma TrimRightChars(s: string)
    requires ParamSafe(s)
    ensures ParamSafe(TrimRight(s))
  {
  }

  lemma SplitEntry(p: (string, string))
    requires ParamSafe(p.0) && ParamSafe(p.1)
    ensures Text.Split(Entry(p), '=') == [p.0, p.1]
  {
    Text.SplitJoin([p.0, p.1], '=');
    assert [p.0, p.1][1..] == [p.1];
  }

  /** Entries that are key=value read back in order, when no key repeats. */
  lemma {:induction false} ParseEntriesBack(params: Params)
    requires forall e :: e in params ==> ParamSafe(e.0) && ParamSafe(e.1)
    ensures ParseEntries(Entries(params)) == if DistinctKeys(params) then Some(params) else None
  {
    if params != [] {
      var most, last := params[..|params| - 1], params[|params| - 1];
      ParseEntriesBack(most);
      assert Entries(params)[..|params| - 1] == Entries(most);
      SplitEntry(last);
      assert params == most + [last];
      LastDistinct(most, last);
    }
  }

  lemma LastDistinct(most: Params, last: (string, string))
    ensures DistinctKeys(most + [last]) <==> DistinctKeys(most) && !HasKey(most, last.0)
  {
    var all := most + [last];
    assert all[|most|] == last;
    assert forall i :: 0 <= i < |most| ==> all[i] == most[i];
  }

  lemma ParseParamsBack(params: Params)
    requires params != [] && forall e :: e in params ==> ParamSafe(e.0) && ParamSafe(e.1)
    ensures ParseParams(Text.Join(Entries(params), ',')) ==
            if DistinctKeys(Trimmed(params)) then Some(Trimmed(params)) else None
  {
    var entries, trimmed := Entries(params), Trimmed(params);
    forall e | e in entries ensures ',' !in e {
      var i :| 0 <= i < |params| && e == Entry(params[i]);
      assert params[i] in params;
    }
    Text.SplitJoin(entries, ',');
    forall i | 0 <= i < |params|
      ensures TrimAll(entries)[i] == Entries(trimmed)[i] && ParamSafe(trimmed[i].0) && ParamSafe(trimmed[i].1)
    {
      assert params[i] in params;
      TrimEntry(params[i].0, params[i].1);
      TrimLeftChars(params[i].0);
      TrimRightChars(params[i].1);
    }
    assert TrimAll(entries) == Entries(trimmed);
    NonEmptyAll(Entries(trimmed));
    ParseEntriesBack(trimmed);
  }

  lemma {:induction false} JoinPathChars(parts: seq<string>)
    requires forall p :: p in parts ==> PathSafe(p)
    ensures '(' !in Text.Join(parts, '/')
  {
    if parts != [] {
      assert PathSafe(parts[0]);
      if |parts| > 1 {
        assert parts == [parts[0]] + parts[1..];
        JoinPathChars(parts[1..]);
      }
    }
  }

  lemma ParsePathBack(parts: seq<string>)
    requires forall p :: p in parts ==> PathSafe(p)
    ensures ParsePath(Text.Join(parts, '/')) == NonEmpty(parts)
  {
    if parts == [] {
      assert Text.Split("", '/') == [""];
    } else {
      Text.SplitJoin(parts, '/');
    }
  }

  /** A path in front of a parenthesised body is cut at the parenthesis. */
  lemma ParseWithBody(path: string, body: string)
    requires '(' !in path
    ensures ParseToken("!" + path + ("(" + body + ")")) ==
            if path == "" || ParseParams(body).None? then None
            else Some(Parsed(ParsePath(path), ParseParams(body).value))
  {
    hide ParseParams, ParsePath;
    var token, url := "!" + path + ("(" + body + ")"), path + "(" + (body + ")");
    assert token[1..] == url;
    Text.FindPrefix(path, '(', body + ")");
    assert url[..|path|] == path;
    assert url[|path| + 1..|url| - 1] == body;
  }

  lemma ParseWithout(path: string)
    requires '(' !in path
    ensures ParseToken("!" + path + "") == Some(Parsed(ParsePath(path), []))
  {
    assert ("!" + path + "")[1..] == path;
    Text.FindPrefix(path, '(', "");
  }

  /** What parsing makes of any generated token. */
  lemma ParseGenerated(parts: seq<string>, params: Params)
    requires Representable(parts, params)
    ensures ParseToken(Token(parts, params)) ==
            if params == [] then Some(Parsed(NonEmpty(parts), []))
            else if Text.Join(parts, '/') == "" || !DistinctKeys(Trimmed(params)) then None
            else Some(Parsed(NonEmpty(parts), Trimmed(params)))
  {
    hide ParseToken, ParsePath, ParseParams;
    var path := Text.Join(parts, '/');
    JoinPathChars(parts);
    ParsePathBack(parts);
    if params == [] {
      ParseWithout(path);
    } else {
      ParseWithBody(path, Text.Join(Entries(params), ','));
      ParseParamsBack(params);
    }
  }

  /** No part is empty, no key starts with a blank, no value ends with one, and parameters follow a path. */
  predicate Clean(parts: seq<string>, params: Params) {
    && "" !in parts && (params == [] || parts != [])
    && forall i :: 0 <= i < |params| ==>
      && !(params[i].0 != "" && Blank(params[i].0[0]))
      && !(params[i].1 != "" && Blank(params[i].1[|params[i].1| - 1]))
  }

  lemma {:induction false} NonEmptyShorter(parts: seq<string>)
    ensures |NonEmpty(parts)| <= |parts| && (NonEmpty(parts) == parts <==> "" !in parts)
  {
    if parts != [] {
      NonEmptyShorter(parts[1..]);
      assert parts == [parts[0]] + parts[1..];
    }
  }

  lemma TrimmedSame(params: Params)
    ensures Trimmed(params) == params <==> forall i :: 0 <= i < |params| ==>
      && !(params[i].0 != "" && Blank(params[i].0[0]))
      && !(params[i].1 != "" && Blank(params[i].1[|params[i].1| - 1]))
  {
    forall i | 0 <= i < |params|
      ensures Trimmed(params)[i] == params[i] <==>
        && !(params[i].0 != "" && Blank(params[i].0[0]))
        && !(params[i].1 != "" && Blank(params[i].1[|params[i].1| - 1]))
    {
    }
  }

  /** A place comes back from its token, with its parts and parameters in order, exactly when it is clean. */
  lemma TokenRoundTrip(parts: seq<string>, params: Params)
    requires Representable(parts, params) && DistinctKeys(params)
    ensures ParseToken(Token(parts, params)) == Some(Parsed(parts, params)) <==> Clean(parts, params)
  {
    ParseGenerated(parts, params);
    NonEmptyShorter(parts);
    TrimmedSame(params);
    if "" !in parts && parts != [] {
      assert parts[0] in parts;
      assert Text.Join(parts, '/') != "";
    }
  }

  // ---------- dispatch ----------

  /** A representation that expects its own token as the first part, and reads the rest its own way. */
  datatype Representation<P> = Representation(token: string, parseAfter: (seq<string>, Params) -> Option<P>)
  {
    function ParseFromParts(parts: seq<string>, params: Params): Option<P> {
      if parts == [] || parts[0] != token then None else parseAfter(parts[1..], params)
    }

    function PathPartsFor(after: seq<string>): seq<string> { [token] + after }

    function ParsePlaceFromToken(history: string): Option<P> {
      match ParseToken(history)
      case None => None
      case Some(parsed) => ParseFromParts(parsed.parts, parsed.params)
    }
  }

  /** The first place that some representation makes of the token, in the order of iteration. */
  function ParseFromHistoryToken<P>(reps: seq<Representation<P>>, history: string): Option<P> {
    if reps == [] then None
    else
      var place := reps[0].ParsePlaceFromToken(history);
      if place.Some? then place else ParseFromHistoryToken(reps[1..], history)
  }

  ghost predicate DistinctTokens<P>(reps: seq<Representation<P>>) {
    forall i, j :: 0 <= i < j < |reps| ==> reps[i].token != reps[j].token
  }

  /** With distinct tokens, a place that some representation reads is the place that is found. */
  lemma {:induction false} OneReader<P>(reps: seq<Representation<P>>, history: string, i: nat)
    requires DistinctTokens(reps) && i < |reps| && reps[i].ParsePlaceFromToken(history).Some?
    ensures ParseFromHistoryToken(reps, history) == reps[i].ParsePlaceFromToken(history)
  {
    if i > 0 {
      assert reps[0].token != reps[i].token;
      assert reps[1..][i - 1] == reps[i];
      OneReader(reps[1..], history, i - 1);
    }
  }

  lemma {:induction false} SomeReader<P>(reps: seq<Representation<P>>, history: string) returns (i: nat)
    requires ParseFromHistoryToken(reps, history).Some?
    ensures i < |reps| && reps[i].ParsePlaceFromToken(history) == ParseFromHistoryToken(reps, history)
  {
    if reps[0].ParsePlaceFromToken(history).Some? { return 0; }
    var j := SomeReader(reps[1..], history);
    return j + 1;
  }

  /** With distinct tokens, the answer does not depend on the order in which the set is walked. */
  lemma OrderIrrelevant<P>(reps: seq<Representation<P>>, other: seq<Representation<P>>, history: string)
    requires DistinctTokens(reps) && DistinctTokens(other) && forall r :: r in reps <==> r in other
    ensures ParseFromHistoryToken(reps, history) == ParseFromHistoryToken(other, history)
  {
    if ParseFromHistoryToken(reps, history).Some? {
      var i := SomeReader(reps, history);
      assert reps[i] in reps;
      var j :| 0 <= j < |other| && other[j] == reps[i];
      OneReader(other, history, j);
    } else if ParseFromHistoryToken(other, history).Some? {
      var i := SomeReader(other, history);
      assert other[i] in other;
      var j :| 0 <= j < |reps| && reps[j] == other[i];
      OneReader(reps, history, j);
    }
  }

  /** A place represented as a history token is found again, by its own representation, whoever else listens. */
  lemma HistoryRoundTrip<P>(reps: seq<Representation<P>>, k: nat, after: seq<string>, params: Params, place: P)
    requires k < |reps| && DistinctTokens(reps) && reps[k].parseAfter(after, params) == Some(place)
    requires Representable(reps[k].PathPartsFor(after), params) && DistinctKeys(params)
    requires Clean(reps[k].PathPartsFor(after), params)
    ensures ParseFromHistoryToken(reps, Token(reps[k].PathPartsFor(after), params)) == Some(place)
  {
    var parts := reps[k].PathPartsFor(after);
    TokenRoundTrip(parts, params);
    assert parts[1..] == after;
    OneReader(reps, Token(parts, params), k);
  }

  // ---------- which tokens are accepted ----------

  /** An entry holds exactly one '='. */
  predicate EntryOk(e: string) {
    var k := Text.Find(e, '=');
    k < |e| && '=' !in e[k + 1..]
  }

  function KeyOf(e: string): string { e[..Text.Find(e, '=')] }

  function ValueOf(e: string): string
    requires EntryOk(e)
  {
    e[Text.Find(e, '=') + 1..]
  }

  predicate EntriesOk(entries: seq<string>) {
    && (forall i :: 0 <= i < |entries| ==> EntryOk(entries[i]))
    && forall i, j :: 0 <= i < j < |entries| ==> KeyOf(entries[i]) != KeyOf(entries[j])
  }

  /** The entries of a body: what stands between commas, trimmed, empty ones left out. */
  function EntriesIn(body: string): seq<string> { NonEmpty(TrimAll(Text.Split(body, ','))) }

  lemma SplitOk(e: string)
    ensures |Text.Split(e, '=')| == 2 <==> EntryOk(e)
    ensures EntryOk(e) ==> Text.Split(e, '=') == [KeyOf(e), ValueOf(e)]
    ensures Text.Split(e, '=')[0] == KeyOf(e)
  {
    hide Text.Find;
    var k := Text.Find(e, '=');
    if k < |e| {
      var rest := e[k + 1..];
      var j := Text.Find(rest, '=');
      if j < |rest| { assert rest[j] in rest; } else { assert rest[..j] == rest; }
    } else {
      assert e[..k] == e;
    }
  }

  /** Entries are accepted exactly if each holds one '=' and no key repeats; they give their keys and values in
      order. */
  lemma {:induction false} EntriesExact(entries: seq<string>)
    ensures ParseEntries(entries).Some? <==> EntriesOk(entries)
    ensures ParseEntries(entries).Some? ==>
      && |ParseEntries(entries).value| == |entries|
      && forall i :: 0 <= i < |entries| ==>
           EntryOk(entries[i]) && ParseEntries(entries).value[i] == (KeyOf(entries[i]), ValueOf(entries[i]))
  {
    hide EntryOk, KeyOf, ValueOf;
    if entries != [] {
      var most, last := entries[..|entries| - 1], entries[|entries| - 1];
      EntriesExact(most);
      SplitOk(last);
      OkMore(most, last);
      assert entries == most + [last];
    }
  }

  lemma OkMore(most: seq<string>, last: string)
    ensures EntriesOk(most + [last]) <==>
      EntriesOk(most) && EntryOk(last) && forall i :: 0 <= i < |most| ==> KeyOf(most[i]) != KeyOf(last)
  {
    hide EntryOk, KeyOf;
    var all := most + [last];
    assert all[|most|] == last && forall i :: 0 <= i < |most| ==> all[i] == most[i];
  }

  /** The token is '!' and a path, and then nothing, or a body in parentheses. */
  predicate Divides(token: string, path: string, body: Option<string>) {
    '(' !in path && token == "!" + path + if body.None? then "" else "(" + body.value + ")"
  }

  /** A token is accepted exactly if it is '!' and a path without '(', alone, or followed by a body in parentheses where
      the path is not empty and the entries of the body are in order; and what is read then. */
  lemma ParseExact(token: string)
    ensures ParseToken(token).Some? <==>
      exists path, body ::
        Divides(token, path, body) && (body.Some? ==> path != "" && EntriesOk(EntriesIn(body.value)))
    ensures forall path, body :: Divides(token, path, body) && ParseToken(token).Some? ==>
      var p := ParseToken(token).value;
      && p.parts == NonEmpty(Text.Split(path, '/'))
      && (body.None? ==> p.params == [])
      && (body.Some? ==>
            var es := EntriesIn(body.value);
            |p.params| == |es| && forall i :: 0 <= i < |es| ==>
              EntryOk(es[i]) && p.params[i] == (KeyOf(es[i]), ValueOf(es[i])))
  {
    hide EntriesOk, EntryOk, EntriesIn, KeyOf, ValueOf;
    forall path, body | Divides(token, path, body) ensures DividedAs(token, path, body) {
      ParseDivided(token, path, body);
    }
    if ParseToken(token).Some? {
      var path, body := Divided(token);
      assert DividedAs(token, path, body);
    }
  }

  /** What parsing makes of a token that divides so. */
  predicate DividedAs(token: string, path: string, body: Option<string>) {
    && (ParseToken(token).Some? <==> (body.Some? ==> path != "" && EntriesOk(EntriesIn(body.value))))
    && (ParseToken(token).Some? ==>
          var p := ParseToken(token).value;
          && p.parts == NonEmpty(Text.Split(path, '/'))
          && (body.None? ==> p.params == [])
          && (body.Some? ==>
                var es := EntriesIn(body.value);
                |p.params| == |es| && forall i :: 0 <= i < |es| ==>
                  EntryOk(es[i]) && p.params[i] == (KeyOf(es[i]), ValueOf(es[i]))))
  }

  lemma ParseDivided(token: string, path: string, body: Option<string>)
    requires Divides(token, path, body)
    ensures DividedAs(token, path, body)
  {
    hide ParseToken, EntriesOk, EntryOk, KeyOf, ValueOf, Text.Split, NonEmpty, TrimAll;
    match body
    case None => ParseWithout(path);
    case Some(b) =>
      ParseWithBody(path, b);
      EntriesExact(EntriesIn(b));
  }

  /** An accepted token divides. */
  lemma Divided(token: string) returns (path: string, body: Option<string>)
    requires ParseToken(token).Some?
    ensures Divides(token, path, body)
  {
    hide Text.Find;
    var url := token[1..];
    var k := Text.Find(url, '(');
    path := url[..k];
    if k == |url| {
      body := None;
      assert token == "!" + path + "";
    } else {
      body := Some(url[k + 1..|url| - 1]);
      assert url == path + ("(" + body.value + ")");
    }
  }

  /** A place with two parts and two parameters, and its token. */
  lemma ExampleToken()
    ensures Token(["home", "deck"], [("a", "1"), ("b", "2")]) == "!home/deck(a=1,b=2)"
  {
    var params := [("a", "1"), ("b", "2")];
    assert Entry(params[0]) == "a=1" && Entry(params[1]) == "b=2";
    assert Entries(params) == ["a=1", "b=2"];
    assert ["a=1", "b=2"][1..] == ["b=2"] && Text.Join(["b=2"], ',') == "b=2";
    assert ["home", "deck"][1..] == ["deck"] && Text.Join(["deck"], '/') == "deck";
  }

  /** What the generator refuses. */
  lemma RepresentableExact(parts: seq<string>, params: Params)
    ensures Representable(parts, params) <==>
      && (forall p :: p in parts ==> '/' !in p && '(' !in p && ')' !in p)
      && forall e :: e in params ==> '=' !in e.0 && ',' !in e.0 && '=' !in e.1 && ',' !in e.1
  {
    forall p: string ensures PathSafe(p) <==> '/' !in p && '(' !in p && ')' !in p {
      if PathSafe(p) { assert forall c :: c in p ==> PathChar(c); }
    }
    forall p: string ensures ParamSafe(p) <==> '=' !in p && ',' !in p {
      if ParamSafe(p) { assert forall c :: c in p ==> ParamChar(c); }
    }
    hide PathSafe, ParamSafe;
  }
}
