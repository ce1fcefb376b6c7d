/** Mana symbols and the strings the database stores for them. */
module Mana {
  import opened Wrappers
  import opened Splitters
  import Text

  datatype Color = White | Blue | Green | Black | Red

  /** A symbol; without a count it is X mana, without colors it is colorless. */
  datatype Symbol = Symbol(colors: set<Color>, isPhyrexian: bool, isSnow: bool, count: Option<int>)

  const MAX_INT := 0x7FFF_FFFF

  /** The checks of the constructor. */
  predicate Constructible(s: Symbol) {
    && (s.count.Some? ==> 0 <= s.count.value <= MAX_INT)
    && |s.colors| <= 2
    && (s.count.Some? || s.colors == {})
    && (s.colors == {} || s.count.GetOr(0) > 0)
    && !(s.isPhyrexian && s.isSnow)
    && (|s.colors| < 2 || !s.isPhyrexian)
    && (!s.isSnow || s.colors == {})
  }

  /** What the constructor refuses: a count that is no int or negative, more than two colors, colors without a
      positive count, two marks at once, two colors with the phyrexian mark, any color with the snow mark. */
  predicate Refused(s: Symbol) {
    || (s.count.Some? && !(0 <= s.count.value <= MAX_INT))
    || |s.colors| > 2
    || (s.colors != {} && (s.count.None? || s.count.value == 0))
    || (s.isPhyrexian && (s.isSnow || |s.colors| == 2))
    || (s.isSnow && s.colors != {})
  }

  // ---------- one color ----------

  function ColorChar(c: Color): char {
    match c
    case White => 'W'
    case Blue => 'U'
    case Green => 'G'
    case Black => 'B'
    case Red => 'R'
  }

  function CharColor(c: char): Option<Color> {
    match c
    case 'W' => Some(White)
    case 'U' => Some(Blue)
    case 'G' => Some(Green)
    case 'B' => Some(Black)
    case 'R' => Some(Red)
    case _ => None
  }

  function ColorChars(order: seq<Color>): (r: string)
    ensures |r| == |order| && forall i :: 0 <= i < |order| ==> r[i] == ColorChar(order[i])
  {
    seq(|order|, i requires 0 <= i < |order| => ColorChar(order[i]))
  }

  /** The colors of a string of color letters; none when some character is not one. */
  function CharColors(s: string): Option<set<Color>> {
    if s == "" then Some({})
    else
      var before, last := CharColors(s[..|s| - 1]), CharColor(s[|s| - 1]);
      if before.None? || last.None? then None else Some(before.value + {last.value})
  }

  // ---------- one symbol ----------

  /** The order in which the set of colors is walked. */
  ghost predicate Walks(order: seq<Color>, s: Symbol) {
    forall c :: c in order <==> c in s.colors
  }

  function Written(s: Symbol, order: seq<Color>): string {
    "1:" + (if s.isPhyrexian then "p" else "") + (if s.isSnow then "s" else "") + ColorChars(order)
    + if s.count.Some? && s.count.value >= 0 then Text.Decimal(s.count.value) else ""
  }

  function FirstDigit(s: string): (k: nat)
    ensures k <= |s| && (k < |s| ==> Text.Digit(s[k])) && forall i :: 0 <= i < k ==> !Text.Digit(s[i])
  {
    if s == "" || Text.Digit(s[0]) then 0 else 1 + FirstDigit(s[1..])
  }

  function Build(s: Symbol): Option<Symbol> { if Constructible(s) then Some(s) else None }

  /** What the part after the version says; none for every kind of error. */
  function ReadBody(b: string): Option<Symbol> {
    if b == "" then Build(Symbol({}, false, false, None))
    else ReadRest(b[0] == 'p', b[0] == 's', if b[0] == 'p' || b[0] == 's' then b[1..] else b)
  }

  /** The color letters, up to the first digit, and the number from there. */
  function ReadRest(isPhyrexian: bool, isSnow: bool, rest: string): Option<Symbol> {
    var k := FirstDigit(rest);
    var colors := CharColors(rest[..k]);
    if colors.None? || !Text.AllDigits(rest[k..]) || Text.ParseNat(rest[k..]) > MAX_INT then None
    else Build(Symbol(colors.value, isPhyrexian, isSnow, if k == |rest| then None else Some(Text.ParseNat(rest[k..]))))
  }

  function Reading(b: string): Option<Symbol> {
    var sep := Text.Find(b, ':');
    if sep == 0 || sep == |b| || b[..sep] != "1" then None else ReadBody(b[sep + 1..])
  }

  lemma {:induction false} CharColorsBack(order: seq<Color>)
    ensures CharColors(ColorChars(order)).Some?
    ensures forall c :: c in CharColors(ColorChars(order)).value <==> c in order
  {
    if order != [] {
      CharColorsBack(order[..|order| - 1]);
      assert ColorChars(order)[..|order| - 1] == ColorChars(order[..|order| - 1]);
      assert order == order[..|order| - 1] + [order[|order| - 1]];
    }
  }

  lemma {:induction false} FirstDigitAfter(a: string, b: string)
    requires forall i :: 0 <= i < |a| ==> !Text.Digit(a[i])
    requires b == "" || Text.Digit(b[0])
    ensures FirstDigit(a + b) == |a|
  {
    if a == "" {
      assert a + b == b;
    } else {
      assert (a + b)[1..] == a[1..] + b;
      FirstDigitAfter(a[1..], b);
    }
  }

  /** The letters of the colors, with or without a number after them, read back. */
  lemma ReadRestBack(s: Symbol, order: seq<Color>, number: string)
    requires Constructible(s) && Walks(order, s)
    requires number == if s.count.Some? then Text.Decimal(s.count.value) else ""
    ensures ReadRest(s.isPhyrexian, s.isSnow, ColorChars(order) + number) == Some(s)
  {
    var letters := ColorChars(order);
    FirstDigitAfter(letters, number);
    assert (letters + number)[..|letters|] == letters;
    assert (letters + number)[|letters|..] == number;
    CharColorsBack(order);
    assert CharColors(letters).value == s.colors;
    if s.count.Some? { Text.ParseDecimal(s.count.value); }
  }

  lemma ReadBodyBack(s: Symbol, order: seq<Color>, mark: string, number: string)
    requires Constructible(s) && Walks(order, s)
    requires mark == if s.isPhyrexian then "p" else if s.isSnow then "s" else ""
    requires number == if s.count.Some? then Text.Decimal(s.count.value) else ""
    ensures ReadBody(mark + (ColorChars(order) + number)) == Some(s)
  {
    hide ReadRest;
    ReadRestBack(s, order, number);
    var rest := ColorChars(order) + number;
    if mark == "" {
      assert mark + rest == rest;
      if rest == "" {
        NothingWritten(s, order, number);
      } else {
        assert rest[0] == if order != [] then ColorChar(order[0]) else number[0];
      }
    } else {
      assert (mark + rest)[1..] == rest;
    }
  }

  lemma NothingWritten(s: Symbol, order: seq<Color>, number: string)
    requires Constructible(s) && Walks(order, s) && !s.isPhyrexian && !s.isSnow
    requires number == if s.count.Some? then Text.Decimal(s.count.value) else ""
    requires ColorChars(order) + number == ""
    ensures s == Symbol({}, false, false, None)
  {
    assert |order| == 0 && |number| == 0;
    assert s.colors == {};
  }

  /** Every constructible symbol comes back from its string, in whatever order its colors are written. */
  lemma SymbolRoundTrip(s: Symbol, order: seq<Color>)
    requires Constructible(s) && Walks(order, s)
    ensures Reading(Written(s, order)) == Some(s)
  {
    hide ReadBody, Written, Reading;
    var mark := if s.isPhyrexian then "p" else if s.isSnow then "s" else "";
    var number := if s.count.Some? then Text.Decimal(s.count.value) else "";
    WrittenParts(s, order, mark, number);
    ReadingVersion(mark + (ColorChars(order) + number));
    ReadBodyBack(s, order, mark, number);
  }

  lemma WrittenParts(s: Symbol, order: seq<Color>, mark: string, number: string)
    requires Constructible(s)
    requires mark == if s.isPhyrexian then "p" else if s.isSnow then "s" else ""
    requires number == if s.count.Some? then Text.Decimal(s.count.value) else ""
    ensures Written(s, order) == "1" + ":" + (mark + (ColorChars(order) + number))
  {
  }

  lemma ReadingVersion(body: string)
    ensures Reading("1" + ":" + body) == ReadBody(body)
  {
    hide ReadBody;
    Text.FindPrefix("1", ':', body);
    assert ("1" + ":" + body)[2..] == body;
  }

  /** Whatever is read is a symbol the constructor accepts. */
  lemma ReadingConstructible(b: string)
    ensures Reading(b).Some? ==> Constructible(Reading(b).value)
  {
  }

  // ---------- the converter ----------

  class SymbolBuilder {
    var manaColors: set<Color>
    var count: Option<int>
    var isPhyrexian: bool
    var isSnow: bool

    constructor ()
      ensures manaColors == {} && count == Some(1) && !isPhyrexian && !isSnow
    {
      manaColors, count, isPhyrexian, isSnow := {}, Some(1), false, false;
    }

    method AddManaColor(c: Color)
      modifies this`manaColors
      ensures manaColors == old(manaColors) + {c}
    {
      manaColors := manaColors + {c};
    }

    /** Refuses a negative count. */
    method SetCount(n: int) returns (ok: bool)
      modifies this`count
      ensures ok == (n >= 0) && count == if ok then Some(n) else old(count)
    {
      ok := n >= 0;
      if ok { count := Some(n); }
    }

    /** A symbol with what was collected, unless the constructor refuses it. */
    method BuildSymbol() returns (s: Option<Symbol>)
      ensures s.None? <==> Refused(Symbol(manaColors, isPhyrexian, isSnow, count))
      ensures s.Some? ==>
        && s.value.colors == manaColors && s.value.count == count
        && s.value.isPhyrexian == isPhyrexian && s.value.isSnow == isSnow
    {
      s := Build(Symbol(manaColors, isPhyrexian, isSnow, count));
    }
  }

  /** Adds the colors of a string of letters; stops at a character that is not one. */
  method AddColors(builder: SymbolBuilder, b: string) returns (known: bool)
    requires builder.manaColors == {}
    modifies builder`manaColors
    ensures known == CharColors(b).Some?
    ensures known ==> builder.manaColors == CharColors(b).value
  {
    var i := 0;
    while i < |b|
      invariant i <= |b| && CharColors(b[..i]) == Some(builder.manaColors)
    {
      assert b[..i + 1][..i] == b[..i];
      var color := CharColor(b[i]);
      if color.None? {
        NoColors(b, i);
        return false;
      }
      builder.AddManaColor(color.value);
      i := i + 1;
    }
    assert b[..i] == b;
    known := true;
  }

  lemma BuildExact(s: Symbol, r: Option<Symbol>)
    requires r.None? <==> Refused(s)
    requires r.Some? ==> r.value == s
    ensures r == Build(s)
  {
  }

  method DoBackward(text: string) returns (result: Option<Symbol>)
    ensures result == Reading(text)
  {
    hide Build, Refused;
    var sep := Text.Find(text, ':');
    if sep == |text| || sep == 0 || text[..sep] != "1" { return None; }
    var b := text[sep + 1..];
    var builder := new SymbolBuilder();
    if b == "" {
      builder.count := None;
      result := builder.BuildSymbol();
      BuildExact(Symbol({}, false, false, None), result);
      return;
    }
    var c := b[0];
    builder.isPhyrexian := c == 'p';
    builder.isSnow := c == 's';
    if c == 'p' || c == 's' { b := b[1..]; }
    result := ReadSymbol(builder, b);
  }

  /** The part after the mark: color letters up to the first digit, and the number from there. */
  method ReadSymbol(builder: SymbolBuilder, rest: string) returns (result: Option<Symbol>)
    requires builder.manaColors == {}
    modifies builder
    ensures result == ReadRest(old(builder.isPhyrexian), old(builder.isSnow), rest)
  {
    hide Build, Refused;
    var b := rest;
    var nextDigit := FirstDigit(b);
    var countString := None;
    if nextDigit < |b| {
      countString := Some(b[nextDigit..]);
      b := b[..nextDigit];
    }
    assert b == rest[..nextDigit];
    var known := AddColors(builder, b);
    if !known { return None; }
    if countString.Some? {
      if !Text.AllDigits(countString.value) || Text.ParseNat(countString.value) > MAX_INT { return None; }
      var _ := builder.SetCount(Text.ParseNat(countString.value));
    } else {
      builder.count := None;
    }
    result := builder.BuildSymbol();
    BuildExact(Symbol(builder.manaColors, builder.isPhyrexian, builder.isSnow, builder.count), result);
  }

  lemma {:induction false} NoColors(s: string, i: nat)
    requires i < |s| && CharColor(s[i]).None?
    ensures CharColors(s).None?
    decreases |s|
  {
    if i < |s| - 1 { NoColors(s[..|s| - 1], i); }
  }

  /** Writes a symbol and reads it back; none when one of the checks on the way fails, which never happens. */
  method DoForward(a: Symbol, order: seq<Color>) returns (result: Option<string>)
    requires Constructible(a) && Walks(order, a)
    ensures result == Some(Written(a, order))
  {
    if a.isPhyrexian && a.isSnow { return None; }
    var builder := "1:";
    if a.isPhyrexian { builder := builder + "p"; }
    if a.isSnow { builder := builder + "s"; }
    ghost var start := builder;
    var i := 0;
    while i < |order|
      invariant i <= |order| && builder == start + ColorChars(order[..i])
    {
      assert ColorChars(order[..i + 1]) == ColorChars(order[..i]) + [ColorChar(order[i])];
      builder := builder + [ColorChar(order[i])];
      i := i + 1;
    }
    assert order[..i] == order;
    if a.count.Some? { builder := builder + Text.Decimal(a.count.value); }
    assert builder == Written(a, order);
    SymbolRoundTrip(a, order);
    var b := DoBackward(builder);
    if b != Some(a) { return None; }
    result := Some(builder);
  }

  // ---------- lists of symbols ----------

  /** The strings of a list of symbols, each with the order in which its colors are walked. */
  function WrittenEach(list: seq<(Symbol, seq<Color>)>): (r: seq<string>)
    ensures |r| == |list| && forall i :: 0 <= i < |list| ==> r[i] == Written(list[i].0, list[i].1)
  {
    seq(|list|, i requires 0 <= i < |list| => Written(list[i].0, list[i].1))
  }

  function WrittenAll(list: seq<(Symbol, seq<Color>)>): string { Text.Join(WrittenEach(list), '|') }

  function ReadingEach(entries: seq<string>): Option<seq<Symbol>> {
    if entries == [] then Some([])
    else
      var first, rest := Reading(entries[0]), ReadingEach(entries[1..]);
      if first.None? || rest.None? then None else Some([first.value] + rest.value)
  }

  function ReadingAll(text: string): Option<seq<Symbol>> {
    ReadingEach(NonEmpty(TrimAll(Text.Split(text, '|'))))
  }

  function Symbols(list: seq<(Symbol, seq<Color>)>): (r: seq<Symbol>)
    ensures |r| == |list| && forall i :: 0 <= i < |list| ==> r[i] == list[i].0
  {
    seq(|list|, i requires 0 <= i < |list| => list[i].0)
  }

  lemma WrittenChars(s: Symbol, order: seq<Color>)
    ensures Written(s, order) != ""
    ensures forall c :: c in Written(s, order) ==> c != '|' && !Blank(c)
  {
    var number := if s.count.Some? && s.count.value >= 0 then Text.Decimal(s.count.value) else "";
    assert forall c :: c in number ==> Text.Digit(c);
    assert forall c :: c in ColorChars(order) ==> c in "WUGBR";
    assert Written(s, order)[0] == '1';
  }

  lemma {:induction false} ReadingEachBack(list: seq<(Symbol, seq<Color>)>)
    requires forall i :: 0 <= i < |list| ==> Constructible(list[i].0) && Walks(list[i].1, list[i].0)
    ensures ReadingEach(WrittenEach(list)) == Some(Symbols(list))
  {
    hide Written, Reading, Constructible, Walks;
    if list != [] {
      ReadingEachBack(list[1..]);
      assert WrittenEach(list)[1..] == WrittenEach(list[1..]);
      assert Symbols(list) == [list[0].0] + Symbols(list[1..]);
      SymbolRoundTrip(list[0].0, list[0].1);
    }
  }

  /** Every list of constructible symbols survives the database, in order. */
  lemma ListRoundTrip(list: seq<(Symbol, seq<Color>)>)
    requires forall i :: 0 <= i < |list| ==> Constructible(list[i].0) && Walks(list[i].1, list[i].0)
    ensures ReadingAll(WrittenAll(list)) == Some(Symbols(list))
  {
    hide Written, Reading;
    var entries := WrittenEach(list);
    forall i | 0 <= i < |list|
      ensures entries[i] != "" && '|' !in entries[i] && Trim(entries[i]) == entries[i]
    {
      WrittenChars(list[i].0, list[i].1);
      TrimNone(entries[i]);
    }
    if list == [] {
      assert Text.Split("", '|') == [""];
      assert TrimAll([""]) == [""];
    } else {
      Text.SplitJoin(entries, '|');
      assert TrimAll(entries) == entries;
      NonEmptyAll(entries);
    }
    ReadingEachBack(list);
  }

  // ---------- the language of the strings ----------

  /** The letters of the colors. */
  const LETTERS: map<char, Color> := map['W' := White, 'U' := Blue, 'G' := Green, 'B' := Black, 'R' := Red]

  predicate AllLetters(s: string) { forall i :: 0 <= i < |s| ==> s[i] in LETTERS }

  lemma LettersExact(c: char)
    ensures CharColor(c) == if c in LETTERS then Some(LETTERS[c]) else None
    ensures c in LETTERS ==> !Text.Digit(c) && c != 'p' && c != 's'
  {}

  lemma {:induction false} ColorsExact(s: string)
    ensures CharColors(s).Some? <==> AllLetters(s)
    ensures AllLetters(s) ==>
      CharColors(s).Some? && forall c :: c in CharColors(s).value <==> exists i :: 0 <= i < |s| && LETTERS[s[i]] == c
    decreases |s|
  {
    if s != "" {
      var most, last := s[..|s| - 1], s[|s| - 1];
      ColorsExact(most);
      LettersExact(last);
      assert AllLetters(s) ==> AllLetters(most) && LETTERS[s[|s| - 1]] == LETTERS[last];
      if AllLetters(s) {
        forall c ensures c in CharColors(s).value <==> exists i :: 0 <= i < |s| && LETTERS[s[i]] == c {
          if i :| 0 <= i < |s| && LETTERS[s[i]] == c {
            if i < |most| { assert LETTERS[most[i]] == c; }
          }
          if i :| 0 <= i < |most| && LETTERS[most[i]] == c { assert LETTERS[s[i]] == c; }
        }
      }
    }
  }

  /** b is the version 1, a mark or none, letters of colors and a number or none, and says s. */
  predicate Says(b: string, mark: string, letters: string, number: string, s: Symbol) {
    b == "1:" + mark + letters + number && SaysParts(mark, letters, number, s)
  }

  /** A mark, color letters and a number, and what they say. */
  predicate SaysParts(mark: string, letters: string, number: string, s: Symbol) {
    && mark in {"", "p", "s"} && AllLetters(letters) && Text.AllDigits(number)
    && s.isPhyrexian == (mark == "p") && s.isSnow == (mark == "s")
    && (forall c :: c in s.colors <==> exists i :: 0 <= i < |letters| && LETTERS[letters[i]] == c)
    && s.count == (if number == "" then None else Some(Text.ParseNat(number)))
    && !Refused(s)
  }

  lemma SaysReading(b: string, mark: string, letters: string, number: string, s: Symbol)
    requires Says(b, mark, letters, number, s)
    ensures Reading(b) == Some(s)
  {
    hide Reading, ReadBody, ReadRest, Refused;
    assert b == "1" + ":" + (mark + (letters + number));
    ReadingVersion(mark + (letters + number));
    SaysRest(mark, letters, number, s);
    SaysBody(mark, letters, number, s);
  }

  lemma SaysRest(mark: string, letters: string, number: string, s: Symbol)
    requires SaysParts(mark, letters, number, s)
    ensures ReadRest(s.isPhyrexian, s.isSnow, letters + number) == Some(s)
  {
    forall i | 0 <= i < |letters| ensures !Text.Digit(letters[i]) { LettersExact(letters[i]); }
    FirstDigitAfter(letters, number);
    ColorsExact(letters);
    assert (letters + number)[..|letters|] == letters && (letters + number)[|letters|..] == number;
    assert CharColors(letters).value == s.colors;
  }

  lemma SaysBody(mark: string, letters: string, number: string, s: Symbol)
    requires mark in {"", "p", "s"} && AllLetters(letters) && Text.AllDigits(number)
    requires s.isPhyrexian == (mark == "p") && s.isSnow == (mark == "s")
    requires ReadRest(s.isPhyrexian, s.isSnow, letters + number) == Some(s)
    ensures ReadBody(mark + (letters + number)) == Some(s)
  {
    var rest := letters + number;
    if mark == "" {
      assert mark + rest == rest;
      if letters != "" { LettersExact(letters[0]); assert rest[0] == letters[0]; }
      else if number != "" { assert rest[0] == number[0]; }
      else { assert rest == ""; }
    } else {
      assert (mark + rest)[1..] == rest && (mark + rest)[0] == mark[0];
    }
  }

  lemma VersionRead(b: string) returns (body: string)
    requires Reading(b).Some?
    ensures b == "1:" + body && ReadBody(body) == Reading(b)
  {
    hide ReadBody, Text.Find;
    var sep := Text.Find(b, ':');
    body := b[sep + 1..];
    assert b[0] == b[..sep][0] && sep == 1;
  }

  lemma BodyRead(body: string) returns (mark: string, rest: string)
    requires ReadBody(body).Some?
    ensures body == mark + rest && mark in {"", "p", "s"}
    ensures body != "" ==> ReadBody(body) == ReadRest(mark == "p", mark == "s", rest)
    ensures body == "" ==> ReadBody(body) == Build(Symbol({}, false, false, None))
  {
    hide ReadRest, Build;
    mark := if body != "" && (body[0] == 'p' || body[0] == 's') then [body[0]] else "";
    rest := body[|mark|..];
    assert body == mark + rest;
  }

  lemma RestRead(mark: string, rest: string, s: Symbol) returns (letters: string, number: string)
    requires mark in {"", "p", "s"} && ReadRest(mark == "p", mark == "s", rest) == Some(s)
    ensures rest == letters + number && SaysParts(mark, letters, number, s)
  {
    hide Text.ParseNat, FirstDigit, CharColors;
    var k := FirstDigit(rest);
    letters, number := rest[..k], rest[k..];
    ColorsExact(letters);
  }

  lemma ReadingSays(b: string) returns (mark: string, letters: string, number: string)
    requires Reading(b).Some?
    ensures Says(b, mark, letters, number, Reading(b).value)
  {
    hide Reading, ReadBody, ReadRest, Text.ParseNat, Refused;
    var s := Reading(b).value;
    var body := VersionRead(b);
    var rest;
    mark, rest := BodyRead(body);
    if body == "" {
      letters, number := "", "";
      NothingRead(s);
    } else {
      letters, number := RestRead(mark, rest, s);
    }
    assert b == "1:" + mark + letters + number;
  }

  lemma NothingRead(s: Symbol)
    requires Build(Symbol({}, false, false, None)) == Some(s)
    ensures SaysParts("", "", "", s)
  {}

  /** A string is read as a symbol exactly if it is made of these parts and says that symbol. */
  lemma ReadingExact(b: string, s: Symbol)
    ensures Reading(b) == Some(s) <==> exists mark, letters, number :: Says(b, mark, letters, number, s)
  {
    if Reading(b) == Some(s) {
      var mark, letters, number := ReadingSays(b);
    }
    if mark, letters, number :| Says(b, mark, letters, number, s) { SaysReading(b, mark, letters, number, s); }
    hide Says, Reading;
  }

  /** Blue or red, and snow. */
  lemma ExampleSymbols()
    ensures Written(Symbol({Blue, Red}, false, false, Some(1)), [Blue, Red]) == "1:UR1"
    ensures Written(Symbol({Green}, true, false, Some(1)), [Green]) == "1:pG1"
    ensures Written(Symbol({}, false, true, Some(1)), []) == "1:s1"
    ensures Written(Symbol({}, false, false, None), []) == "1:"
  {
    assert Text.Decimal(1) == "1" && ColorChars([]) == "";
    assert ColorChars([Blue, Red]) == "UR" && ColorChars([Green]) == "G";
  }

  /** Symbols that the constructor takes, and one for each of its refusals. */
  lemma RefusedExamples()
    ensures !Refused(Symbol({}, false, false, None)) && !Refused(Symbol({}, false, false, Some(0)))
    ensures !Refused(Symbol({White, Black}, false, false, Some(1))) && !Refused(Symbol({Red}, true, false, Some(1)))
    ensures !Refused(Symbol({}, false, true, Some(1))) && !Refused(Symbol({}, false, false, Some(2147483647)))
    ensures Refused(Symbol({}, false, false, Some(-1))) && Refused(Symbol({}, false, false, Some(2147483648)))
    ensures Refused(Symbol({Red}, false, false, None)) && Refused(Symbol({Red}, false, false, Some(0)))
    ensures Refused(Symbol({Red, Blue, Green}, false, false, Some(1)))
    ensures Refused(Symbol({Red}, false, true, Some(1))) && Refused(Symbol({}, true, true, Some(1)))
    ensures Refused(Symbol({Red, Blue}, true, false, Some(1)))
  {
    assert |{Red, Blue, Green}| == 3;
  }
}
