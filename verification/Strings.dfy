/** The string operations the models need, on ASCII letters and blanks. */
module Strings {

  function LowerChar(c: char): char {
    if 'A' <= c <= 'Z' then c - 'A' + 'a' else c
  }

  function Lower(s: string): string {
    seq(|s|, i requires 0 <= i < |s| => LowerChar(s[i]))
  }

  predicate IsBlank(c: char) { c == ' ' || c == '\t' || c == '\n' || c == '\r' }

  function TrimLeft(s: string): string {
    if s != [] && IsBlank(s[0]) then TrimLeft(s[1..]) else s
  }

  function TrimRight(s: string): string {
    if s != [] && IsBlank(s[|s| - 1]) then TrimRight(s[..|s| - 1]) else s
  }

  function Strip(s: string): string { TrimRight(TrimLeft(s)) }

  lemma LowerTwice(s: string)
    ensures Lower(Lower(s)) == Lower(s)
  {
  }

  lemma StripTwice(s: string)
    ensures Strip(Strip(s)) == Strip(s)
  {
    TrimLeftDone(s);
    TrimRightDone(TrimLeft(s));
    TrimRightKeepsHead(TrimLeft(s));
  }

  lemma {:induction false} TrimLeftDone(s: string)
    ensures TrimLeft(s) == [] || !IsBlank(TrimLeft(s)[0])
  {
    if s != [] && IsBlank(s[0]) { TrimLeftDone(s[1..]); }
  }

  lemma {:induction false} TrimRightDone(s: string)
    ensures TrimRight(s) == [] || !IsBlank(TrimRight(s)[|TrimRight(s)| - 1])
  {
    if s != [] && IsBlank(s[|s| - 1]) { TrimRightDone(s[..|s| - 1]); }
  }

  lemma {:induction false} TrimRightKeepsHead(s: string)
    ensures TrimRight(s) == [] || (s != [] && TrimRight(s)[0] == s[0])
  {
    if s != [] && IsBlank(s[|s| - 1]) { TrimRightKeepsHead(s[..|s| - 1]); }
  }

  /** Lowering neither makes nor removes blanks. */
  lemma StripLower(s: string)
    ensures Strip(Lower(s)) == Lower(Strip(s))
  {
    TrimLeftLower(s);
    TrimRightLower(TrimLeft(s));
  }

  lemma {:induction false} TrimLeftLower(s: string)
    ensures TrimLeft(Lower(s)) == Lower(TrimLeft(s))
  {
    if s != [] {
      assert Lower(s)[1..] == Lower(s[1..]);
      if IsBlank(s[0]) { TrimLeftLower(s[1..]); }
    }
  }

  lemma {:induction false} TrimRightLower(s: string)
    ensures TrimRight(Lower(s)) == Lower(TrimRight(s))
  {
    if s != [] {
      assert Lower(s)[..|s| - 1] == Lower(s[..|s| - 1]);
      if IsBlank(s[|s| - 1]) { TrimRightLower(s[..|s| - 1]); }
    }
  }

  /** Lowering turns the capitals into small letters and leaves the rest. */
  lemma LowerMeaning(s: string, i: nat)
    requires i < |s|
    ensures |Lower(s)| == |s|
    ensures Lower(s)[i] as int == if 65 <= s[i] as int <= 90 then s[i] as int + 32 else s[i] as int
  {
  }

  predicate AllBlank(s: string) { forall c | c in s :: c == ' ' || c == '\t' || c == '\n' || c == '\r' }

  /** Stripping cuts the blanks at both ends and nothing else. */
  lemma StripMeaning(s: string) returns (left: string, right: string)
    ensures s == left + Strip(s) + right && AllBlank(left) && AllBlank(right)
    ensures Strip(s) != "" ==> !AllBlank([Strip(s)[0]]) && !AllBlank([Strip(s)[|Strip(s)| - 1]])
  {
    left := TrimLeftCuts(s);
    right := TrimRightCuts(TrimLeft(s));
    TrimLeftDone(s);
    TrimRightDone(TrimLeft(s));
    TrimRightKeepsHead(TrimLeft(s));
    if Strip(s) != "" {
      var first, last := Strip(s)[0], Strip(s)[|Strip(s)| - 1];
      assert first in [first] && last in [last];
    }
  }

  lemma {:induction false} TrimLeftCuts(s: string) returns (left: string)
    ensures s == left + TrimLeft(s) && AllBlank(left)
  {
    left := "";
    if s != "" && IsBlank(s[0]) {
      var rest := TrimLeftCuts(s[1..]);
      left := [s[0]] + rest;
    }
  }

  lemma {:induction false} TrimRightCuts(s: string) returns (right: string)
    ensures s == TrimRight(s) + right && AllBlank(right)
  {
    right := "";
    if s != "" && IsBlank(s[|s| - 1]) {
      var rest := TrimRightCuts(s[..|s| - 1]);
      right := rest + [s[|s| - 1]];
    }
  }
}
