/** White space as the standard library sees it, and what is left of a text without it. */
module Blanks {

  predicate IsSpace(c: char) {
    || '\t' <= c <= '\r' || c == ' ' || c == '\U{85}' || c == '\U{A0}' || c == '\U{1680}'
    || '\U{2000}' <= c <= '\U{200A}' || c == '\U{2028}' || c == '\U{2029}' || c == '\U{202F}'
    || c == '\U{205F}' || c == '\U{3000}'
  }

  predicate IsBlank(s: string) {
    forall c | c in s :: IsSpace(c)
  }

  function TrimLeft(s: string): string {
    if s != "" && IsSpace(s[0]) then TrimLeft(s[1..]) else s
  }

  function TrimRight(s: string): string {
    if s != "" && IsSpace(s[|s| - 1]) then TrimRight(s[..|s| - 1]) else s
  }

  /** The text without leading and trailing white space. */
  function Trim(s: string): string {
    TrimRight(TrimLeft(s))
  }

  lemma {:induction false} TrimLeftParts(s: string) returns (k: nat)
    ensures k <= |s| && TrimLeft(s) == s[k..] && IsBlank(s[..k])
    ensures TrimLeft(s) != "" ==> !IsSpace(TrimLeft(s)[0])
  {
    hide IsSpace;
    k := 0;
    if s != "" && IsSpace(s[0]) {
      var j := TrimLeftParts(s[1..]);
      k := j + 1;
      assert s[..k] == [s[0]] + s[1..][..j];
    }
  }

  lemma {:induction false} TrimRightParts(s: string) returns (k: nat)
    ensures k <= |s| && TrimRight(s) == s[..k] && IsBlank(s[k..])
    ensures k > 0 ==> !IsSpace(s[k - 1])
  {
    hide IsSpace;
    k := |s|;
    if s != "" && IsSpace(s[|s| - 1]) {
      var shorter := s[..|s| - 1];
      k := TrimRightParts(shorter);
      assert s[k..] == shorter[k..] + [s[|s| - 1]];
      assert s[..k] == shorter[..k];
    }
  }

  /** Trimming leaves nothing exactly when there was nothing but white space. */
  lemma TrimEmptyIffBlank(s: string)
    ensures Trim(s) == "" <==> IsBlank(s)
  {
    hide IsSpace, TrimLeft, TrimRight;
    var i := TrimLeftParts(s);
    var k := TrimRightParts(TrimLeft(s));
    if TrimLeft(s) != "" {
      assert s[i] in s && TrimLeft(s)[0] == s[i];
    }
    if Trim(s) == "" {
      forall c | c in s ensures IsSpace(c) {
        assert s == s[..i] + s[i..];
      }
    }
  }

  /** Trimming twice is trimming once. */
  lemma TrimIdempotent(s: string)
    ensures Trim(Trim(s)) == Trim(s)
  {
    hide IsSpace;
    var l := TrimLeft(s);
    var i := TrimLeftParts(s);
    var k := TrimRightParts(l);
    var t := l[..k];
    if t != "" {
      assert t[0] == l[0];
      assert TrimLeft(t) == t && TrimRight(t) == t;
    }
  }

  /** What trimming takes away is white space, and what it leaves neither starts nor ends with any. */
  lemma TrimTakesBlanks(s: string) returns (before: string, after: string)
    ensures s == before + Trim(s) + after && IsBlank(before) && IsBlank(after)
    ensures Trim(s) != "" ==> !IsSpace(Trim(s)[0]) && !IsSpace(Trim(s)[|Trim(s)| - 1])
  {
    hide IsSpace, TrimLeft, TrimRight;
    var i := TrimLeftParts(s);
    var k := TrimRightParts(TrimLeft(s));
    before, after := s[..i], TrimLeft(s)[k..];
    assert s == s[..i] + s[i..] && s[i..] == s[i..][..k] + s[i..][k..];
    if Trim(s) != "" { assert Trim(s)[0] == TrimLeft(s)[0]; }
  }

  /** White space is what Unicode calls so, by code point. */
  lemma SpaceIs(c: char)
    ensures IsSpace(c) <==>
              c as int in {9, 10, 11, 12, 13, 0x20, 0x85, 0xA0, 0x1680, 0x2000, 0x2001, 0x2002, 0x2003, 0x2004, 0x2005, 0x2006,
                           0x2007, 0x2008, 0x2009, 0x200A, 0x2028, 0x2029, 0x202F, 0x205F, 0x3000}
  {
  }
}
