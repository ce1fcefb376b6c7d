/** What escaping spells, stated by reading the result back: hexadecimal digits are given values here, and nothing is
    said of how an escape is made. */
module UrlEscape {
  import opened Wrappers
  import opened Text
  import opened UrlMachine
  import opened UrlScan

  /** The characters that stand for themselves in a path, in user information and in scheme data; in a query also
      the question mark. */
  predicate Literal(c: char, query: bool) {
    '!' <= c <= '~' && c !in ['"', '#', '<', '>', '`'] && (c == '?' ==> query)
  }

  /** Tab, line feed and carriage return, which are left out. */
  predicate Dropped(c: char) { c as int == 9 || c as int == 10 || c as int == 13 }

  /** The value of an upper-case hexadecimal digit, -1 for other characters. */
  function HexValue(c: char): int {
    if '0' <= c <= '9' then c as int - 0x30
    else if 'A' <= c <= 'F' then c as int - 0x41 + 10
    else -1
  }

  /** A '%' and two digits whose value is n. */
  predicate IsEscape(e: string, n: int) {
    |e| == 3 && e[0] == '%' && HexValue(e[1]) >= 0 && HexValue(e[2]) >= 0 && 16 * HexValue(e[1]) + HexValue(e[2]) == n
  }

  predicate SpellsChar(e: string, c: char, query: bool) {
    if Literal(c, query) then e == [c] else IsEscape(e, c as int)
  }

  /** e spells t, character by character: a literal by itself, another one by its code, and tabs and line ends not. */
  predicate Spells(e: string, t: string, query: bool) {
    if t == "" then e == ""
    else if Dropped(t[0]) then Spells(e, t[1..], query)
    else if Literal(t[0], query) then e != "" && e[0] == t[0] && Spells(e[1..], t[1..], query)
    else |e| >= 3 && IsEscape(e[..3], t[0] as int) && Spells(e[3..], t[1..], query)
  }

  /** Only one text spells t. */
  lemma {:induction false} SpellsUnique(e: string, d: string, t: string, query: bool)
    requires Spells(e, t, query) && Spells(d, t, query)
    ensures e == d
    decreases |t|
  {
    if t == "" {
    } else if Dropped(t[0]) {
      SpellsUnique(e, d, t[1..], query);
    } else if Literal(t[0], query) {
      SpellsUnique(e[1..], d[1..], t[1..], query);
      assert e == [e[0]] + e[1..] && d == [d[0]] + d[1..];
    } else {
      SpellsUnique(e[3..], d[3..], t[1..], query);
      SameEscape(e[..3], d[..3], t[0] as int);
      assert e == e[..3] + e[3..] && d == d[..3] + d[3..];
    }
  }

  lemma SameEscape(e: string, d: string, n: int)
    requires IsEscape(e, n) && IsEscape(d, n)
    ensures e == d
  {
    assert HexValue(e[1]) == n / 16 == HexValue(d[1]);
    assert HexValue(e[2]) == n % 16 == HexValue(d[2]);
  }

  /** One more character. */
  lemma {:induction false} SpellsMore(e: string, t: string, d: string, c: char, query: bool)
    requires Spells(e, t, query) && if Dropped(c) then d == "" else SpellsChar(d, c, query)
    ensures Spells(e + d, t + [c], query)
    decreases |t|
  {
    hide Literal, Dropped, IsEscape;
    if t == "" {
      assert t + [c] == [c] && e + d == d;
      SpellsOne(d, c, query);
    } else {
      assert (t + [c])[0] == t[0] && (t + [c])[1..] == t[1..] + [c];
      if Dropped(t[0]) {
        SpellsMore(e, t[1..], d, c, query);
      } else if Literal(t[0], query) {
        SpellsMore(e[1..], t[1..], d, c, query);
        assert (e + d)[1..] == e[1..] + d;
      } else {
        SpellsMore(e[3..], t[1..], d, c, query);
        assert (e + d)[..3] == e[..3] && (e + d)[3..] == e[3..] + d;
      }
    }
  }

  lemma SpellsOne(d: string, c: char, query: bool)
    requires if Dropped(c) then d == "" else SpellsChar(d, c, query)
    ensures Spells(d, [c], query)
  {
    assert [c][0] == c && [c][1..] == "";
    if !Dropped(c) && !Literal(c, query) { assert d[..3] == d && d[3..] == ""; }
  }

  // ---------- what the code's escape spells ----------

  lemma DigitExact(d: nat)
    requires d < 16
    ensures HexValue(HexDigit(d)) == d
  {}

  /** Every ASCII character is escaped as it should be, in a query and elsewhere. */
  lemma EscapeExact(c: char)
    requires c as int < 0x80
    ensures SpellsChar(PercentEscape(c), c, false) && SpellsChar(PercentEscapeQuery(c), c, true)
  {
    var n := c as int;
    assert n / 16 % 16 == n / 16 && 16 * (n / 16) + n % 16 == n;
    DigitExact(n / 16);
    DigitExact(n % 16);
    hide HexDigit;
  }

  lemma DroppedExact(c: char)
    ensures IsTabOrNewline(c) <==> Dropped(c)
  {}

  // ---------- decoding ----------

  /** Each '%' with two upper-case digits after it read as the character of that code. */
  function Decode(s: string): string {
    if s == "" then ""
    else if |s| >= 3 && s[0] == '%' && HexValue(s[1]) >= 0 && HexValue(s[2]) >= 0 then
      [(16 * HexValue(s[1]) + HexValue(s[2])) as char] + Decode(s[3..])
    else [s[0]] + Decode(s[1..])
  }

  /** t without tabs and line ends. */
  function Kept(t: string): string {
    if t == "" then "" else (if Dropped(t[0]) then "" else [t[0]]) + Kept(t[1..])
  }

  /** What spells t decodes to what t decodes to; to t itself where t has no '%'. */
  lemma {:induction false} DecodeSpelled(e: string, t: string, query: bool)
    requires Spells(e, t, query)
    ensures Decode(e) == Decode(Kept(t))
    ensures '%' !in t ==> Decode(e) == Kept(t)
    decreases |t|
  {
    SpellsKept(e, t, query);
    KeptSome(t);
    DecodeKept(e, Kept(t), query);
    if '%' !in t {
      DecodePlain(Kept(t));
    }
  }

  lemma {:induction false} KeptSome(t: string)
    ensures forall c :: c in Kept(t) ==> c in t && !Dropped(c)
  {
    if t != "" { KeptSome(t[1..]); }
  }

  lemma {:induction false} SpellsKept(e: string, t: string, query: bool)
    requires Spells(e, t, query)
    ensures Spells(e, Kept(t), query)
    decreases |t|
  {
    if t != "" {
      if Dropped(t[0]) {
        SpellsKept(e, t[1..], query);
        assert Kept(t) == Kept(t[1..]);
      } else {
        SpellsKept(if Literal(t[0], query) then e[1..] else e[3..], t[1..], query);
        assert Kept(t)[0] == t[0] && Kept(t)[1..] == Kept(t[1..]);
      }
    }
  }

  lemma {:induction false} DecodePlain(t: string)
    requires '%' !in t
    ensures Decode(t) == t
  {
    if t != "" { DecodePlain(t[1..]); }
  }

  /** Where the first two characters of e are digits, so they are in t. */
  lemma SameDigits(e: string, t: string, query: bool)
    requires Spells(e, t, query) && (forall c :: c in t ==> !Dropped(c))
    ensures t == "" <==> e == ""
    ensures t != "" ==> HexValue(e[0]) == HexValue(t[0])
    ensures t != "" && HexValue(t[0]) >= 0 ==> Spells(e[1..], t[1..], query)
  {
    if t != "" {
      assert t[0] in t;
      if !Literal(t[0], query) { assert e[..3][0] == e[0]; }
    }
  }

  /** Both go on alike: three characters are decoded in both, or one is taken over in both. */
  lemma DecodeAlike(e: string, t: string, query: bool)
    requires Spells(e, t, query) && t != "" && (forall c :: c in t ==> !Dropped(c)) && Literal(t[0], query)
    ensures e != "" && e[0] == t[0] && Spells(e[1..], t[1..], query)
    ensures
      var three := |t| >= 3 && t[0] == '%' && HexValue(t[1]) >= 0 && HexValue(t[2]) >= 0;
      && three == (|e| >= 3 && e[0] == '%' && HexValue(e[1]) >= 0 && HexValue(e[2]) >= 0)
      && (three ==>
            Spells(e[3..], t[3..], query) && HexValue(e[1]) == HexValue(t[1]) && HexValue(e[2]) == HexValue(t[2]))
  {
    hide Literal, Dropped, HexValue, IsEscape, Spells;
    assert forall c :: c in t[1..] ==> c in t;
    SpellsFirst(e, t, query);
    SameDigits(e[1..], t[1..], query);
    if |t| > 1 && HexValue(t[1]) >= 0 {
      assert forall c :: c in t[2..] ==> c in t;
      assert t[1..][1..] == t[2..] && e[1..][1..] == e[2..] && t[1..][0] == t[1] && e[1..][0] == e[1];
      SameDigits(e[2..], t[2..], query);
      assert |t| > 2 ==> t[2..][0] == t[2] && e[2..][0] == e[2] && t[2..][1..] == t[3..] && e[2..][1..] == e[3..];
    }
  }

  lemma SpellsFirst(e: string, t: string, query: bool)
    requires Spells(e, t, query) && t != "" && t[0] in t && !Dropped(t[0]) && Literal(t[0], query)
    ensures e != "" && e[0] == t[0] && Spells(e[1..], t[1..], query)
  {}

  lemma {:induction false} DecodeKept(e: string, t: string, query: bool)
    requires Spells(e, t, query) && (forall c :: c in t ==> !Dropped(c))
    ensures Decode(e) == Decode(t)
    decreases |t|
  {
    hide Literal, Dropped;
    if t != "" {
      assert t[0] in t && forall c :: c in t[1..] ==> c in t;
      if Literal(t[0], query) {
        DecodeAlike(e, t, query);
        if |t| >= 3 && t[0] == '%' && HexValue(t[1]) >= 0 && HexValue(t[2]) >= 0 {
          assert forall c :: c in t[3..] ==> c in t;
          DecodeKept(e[3..], t[3..], query);
        } else {
          DecodeKept(e[1..], t[1..], query);
        }
      } else {
        NoPercent(t[0], query);
        assert e[..3][0] == e[0] && e[..3][1] == e[1] && e[..3][2] == e[2];
        DecodeKept(e[3..], t[1..], query);
      }
    }
  }

  lemma NoPercent(c: char, query: bool)
    requires !Literal(c, query)
    ensures c != '%'
  {}
}
