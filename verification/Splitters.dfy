/** Trimming and dropping of empty pieces, as the library splitters do it for ASCII strings. */
module Splitters {
  predicate Blank(c: char) { c == ' ' || 9 <= c as int <= 13 }

  function TrimLeft(s: string): (r: string)
    ensures |r| <= |s|
  {
    if s != "" && Blank(s[0]) then TrimLeft(s[1..]) else s
  }

  function TrimRight(s: string): (r: string)
    ensures |r| <= |s|
  {
    if s != "" && Blank(s[|s| - 1]) then TrimRight(s[..|s| - 1]) else s
  }

  function Trim(s: string): string { TrimRight(TrimLeft(s)) }

  function NonEmpty(parts: seq<string>): seq<string> {
    if parts == [] then []
    else if parts[0] == "" then NonEmpty(parts[1..])
    else [parts[0]] + NonEmpty(parts[1..])
  }

  function TrimAll(s: seq<string>): (r: seq<string>)
    ensures |r| == |s| && forall i :: 0 <= i < |s| ==> r[i] == Trim(s[i])
  {
    seq(|s|, i requires 0 <= i < |s| => Trim(s[i]))
  }

  lemma {:induction false} NonEmptyAll(s: seq<string>)
    requires "" !in s
    ensures NonEmpty(s) == s
  {
    if s != [] {
      assert s == [s[0]] + s[1..];
      NonEmptyAll(s[1..]);
    }
  }

  lemma TrimNone(s: string)
    requires s != "" && !Blank(s[0]) && !Blank(s[|s| - 1])
    ensures Trim(s) == s
  {
  }

  predicate AllBlank(s: string) { forall i :: 0 <= i < |s| ==> s[i] in {' ', '\t', '\n', '\U{B}', '\U{C}', '\r'} }

  lemma {:induction false} TrimLeftExact(s: string) returns (k: nat)
    ensures k <= |s| && AllBlank(s[..k]) && TrimLeft(s) == s[k..] && (k < |s| ==> !AllBlank([s[k]]))
  {
    k := 0;
    if s != "" {
      assert [s[0]][0] == s[0];
      if Blank(s[0]) {
        var j := TrimLeftExact(s[1..]);
        k := j + 1;
        assert s[..k] == [s[0]] + s[1..][..j] && s[1..][j..] == s[k..];
      }
    }
  }

  lemma {:induction false} TrimRightExact(s: string) returns (k: nat)
    ensures k <= |s| && AllBlank(s[k..]) && TrimRight(s) == s[..k] && (k > 0 ==> !AllBlank([s[k - 1]]))
    decreases |s|
  {
    k := |s|;
    if s != "" {
      assert [s[|s| - 1]][0] == s[|s| - 1];
      if Blank(s[|s| - 1]) {
        k := TrimRightExact(s[..|s| - 1]);
        assert s[k..] == s[..|s| - 1][k..] + [s[|s| - 1]] && s[..|s| - 1][..k] == s[..k];
      }
    }
  }

  /** Trimming takes off all blanks, tabs, line ends and feeds at both ends, and nothing else. */
  lemma TrimExact(s: string) returns (i: nat, j: nat)
    ensures i <= j <= |s| && Trim(s) == s[i..j] && AllBlank(s[..i]) && AllBlank(s[j..])
    ensures i < j ==> !AllBlank([s[i]]) && !AllBlank([s[j - 1]])
  {
    i := TrimLeftExact(s);
    var k := TrimRightExact(s[i..]);
    j := i + k;
    assert s[i..][..k] == s[i..j] && s[i..][k..] == s[j..];
  }
}
