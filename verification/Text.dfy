/** String helpers of the host language. */
module Text {

  /** White space and line terminators, as `trim` understands them. */
  predicate IsSpace(c: char) {
    || c in "\t\n\r \U{000B}\U{000C}\U{00A0}\U{1680}\U{2028}\U{2029}\U{202F}\U{205F}\U{3000}\U{FEFF}"
    || '\U{2000}' <= c <= '\U{200A}'
  }

  function TrimStart(s: string): string {
    if s != "" && IsSpace(s[0]) then TrimStart(s[1..]) else s
  }

  function TrimEnd(s: string): string {
    if s != "" && IsSpace(s[|s| - 1]) then TrimEnd(s[..|s| - 1]) else s
  }

  function Trim(s: string): string {
    TrimEnd(TrimStart(s))
  }

  /** The white space and line terminators of the language, code point by code point (sections 12.2 and 12.3 of
      ECMA-262). */
  lemma SpacesAre(c: char)
    ensures IsSpace(c) <==>
      || 0x9 <= c as int <= 0xD || 0x2000 <= c as int <= 0x200A
      || c as int in {0x20, 0xA0, 0x1680, 0x2028, 0x2029, 0x202F, 0x205F, 0x3000, 0xFEFF}
  {}

  /** The text without some spaces at its ends, and with none left there. */
  ghost predicate Trims(s: string, a: nat, b: nat) {
    && a <= b <= |s|
    && (forall i :: 0 <= i < a || b <= i < |s| ==> IsSpace(s[i]))
    && (a < b ==> !IsSpace(s[a]) && !IsSpace(s[b - 1]))
  }

  lemma {:induction false} TrimEndMeaning(s: string) returns (b: nat)
    ensures b <= |s| && TrimEnd(s) == s[..b]
    ensures (forall i :: b <= i < |s| ==> IsSpace(s[i])) && (b > 0 ==> !IsSpace(s[b - 1]))
  {
    hide IsSpace;
    b := |s|;
    if s != "" && IsSpace(s[|s| - 1]) {
      b := TrimEndMeaning(s[..|s| - 1]);
    }
  }

  lemma {:induction false} TrimStartMeaning(s: string) returns (a: nat)
    ensures a <= |s| && TrimStart(s) == s[a..]
    ensures (forall i :: 0 <= i < a ==> IsSpace(s[i])) && (a < |s| ==> !IsSpace(s[a]))
    decreases |s|
  {
    hide IsSpace;
    a := 0;
    if s != "" && IsSpace(s[0]) {
      var k := TrimStartMeaning(s[1..]);
      assert s[1..][k..] == s[k + 1..];
      assert forall i :: 0 < i < |s| ==> s[i] == s[1..][i - 1];
      a := k + 1;
    }
  }

  /** `trim` takes away the spaces at both ends and nothing else. */
  lemma TrimMeaning(s: string) returns (a: nat, b: nat)
    ensures Trims(s, a, b) && Trim(s) == s[a..b]
  {
    hide IsSpace, TrimStart, TrimEnd;
    a := TrimStartMeaning(s);
    var k := TrimEndMeaning(s[a..]);
    b := a + k;
    assert s[a..][..k] == s[a..b];
    assert forall i :: a <= i < |s| ==> s[i] == s[a..][i - a];
  }

  /** That says which text it is. */
  lemma TrimIsUnique(s: string, a: nat, b: nat)
    requires Trims(s, a, b)
    ensures Trim(s) == s[a..b]
  {
    var c, d := TrimMeaning(s);
    hide IsSpace, Trim;
  }
}
